/** The authorization-code protocol as interleaved atomic steps, with a record of
    everything that happened. */
module Protocol {
  import opened Common
  import opened Authorize
  import opened LoginStores
  import CodeStores
  import Dpop
  import Tokens
  import WebAuthn

  datatype Config = Config(issuer: string, audience: string, rpIdHash: Bytes, origin: string)

  // ------------------------------------------------------------ processes

  datatype FinishRequest = FinishRequest(rid: string, credentialId: string, assertion: WebAuthn.Assertion, decodes: bool)

  /** Where one call of the login's finish endpoint stands. */
  datatype Finish =
    | Asked(req: FinishRequest)
    | Challenged(req: FinishRequest, challenge: Bytes)
    | Identified(req: FinishRequest, challenge: Bytes, cred: Credential)
    | Verified(rid: string, cred: Credential, count: nat, judgement: nat)
    | Counted(rid: string, cred: Credential, judgement: nat)
    | Consumed(rid: string, cred: Credential, judgement: nat, request: AuthzRequest)
    | Over

  datatype TokenRequest = TokenRequest(code: string, clientId: string, redirectUri: string, verifier: string)

  /** Where one call of the token endpoint stands. */
  datatype Exchange =
    | Presented(req: TokenRequest)
    | Redeemed(req: TokenRequest, grant: CodeStores.Grant)
    | KeyChecked(req: TokenRequest, grant: CodeStores.Grant)
    | Proved(req: TokenRequest, grant: CodeStores.Grant, confirm: Option<Tokens.HashText<Tokens.Key>>)
    | Done

  // -------------------------------------------------------------- history

  datatype Put = Put(request: AuthzRequest, at: Time)

  datatype Begun = Begun(rid: string, at: Time)

  /** One question put to the Guard, and its verdict. */
  datatype Judgement = Judgement(rid: string, challenge: Bytes, cred: Credential, verdict: WebAuthn.Verdict)

  datatype Consumption = Consumption(process: nat, cred: Credential, judgement: nat, request: AuthzRequest, at: Time)

  datatype Issuance = Issuance(rid: string, grant: CodeStores.Grant, at: Time)

  datatype Redemption = Redemption(process: nat, clientId: string, redirectUri: string, at: Time)

  datatype Minted = Minted(code: string, verifier: string, claims: Tokens.Claims, at: Time)

  datatype History = History(
    puts: map<string, Put>,
    begun: map<Bytes, Begun>,
    taken: map<Bytes, Time>,
    judged: seq<Judgement>,
    consumed: map<string, Consumption>,
    issued: map<string, Issuance>,
    redeemed: map<string, Redemption>,
    tokens: seq<Minted>,
    counts: map<string, seq<nat>>)

  datatype State = State(
    clients: Clients,
    pending: map<string, Expiring<AuthzRequest>>,
    challenges: map<string, Expiring<Bytes>>,
    creds: map<string, Credential>,
    codes: map<string, CodeStores.Stored>,
    finishes: map<nat, Finish>,
    exchanges: map<nat, Exchange>,
    h: History)

  const INITIAL: State := State(map[], map[], map[], map[], map[], map[], map[],
    History(map[], map[], map[], [], map[], map[], map[], [], map[]))

  // ---------------------------------------------------------------- steps

  /** The atomic steps. Random values, verdict inputs and client inputs are arbitrary. */
  datatype Step =
    | Register(id: string, uris: seq<string>)
    | AddCredential(cred: Credential)
    | AuthorizeRequest(params: Params, rid: string)
    | Begin(rid: string, challenge: Bytes)
    | StartFinish(p: nat, req: FinishRequest)
    | TakeChallenge(p: nat)
    | GetCredential(p: nat)
    | AskGuard(p: nat, reachable: bool, signed: set<WebAuthn.Signed>)
    | UpdateCount(p: nat)
    | TakePending(p: nat)
    | IssueCode(p: nat, random: Option<string>)
    | StartExchange(q: nat, request: TokenRequest)
    | RedeemCode(q: nat)
    | CheckPkce(q: nat)
    | CheckProof(q: nat, proof: Option<Dpop.Outcome>)
    | MintToken(q: nat, jti: Option<string>)

  datatype Event = Event(step: Step, now: Time)

  predicate OfFinish(step: Step)
  {
    || step.StartFinish? || step.TakeChallenge? || step.GetCredential? || step.AskGuard?
    || step.UpdateCount? || step.TakePending? || step.IssueCode?
  }

  predicate OfExchange(step: Step)
  {
    step.StartExchange? || step.RedeemCode? || step.CheckPkce? || step.CheckProof? || step.MintToken?
  }

  /** Which records a step can touch at all. */
  ghost predicate Framed(s: State, s': State, step: Step)
  {
    && (forall c | c in s.clients :: c in s'.clients && s'.clients[c] == s.clients[c])
    && (!step.AuthorizeRequest? && !step.TakePending? ==> s'.pending == s.pending)
    && (!step.Begin? && !step.TakeChallenge? ==> s'.challenges == s.challenges)
    && (!step.UpdateCount? && !step.AddCredential? ==> s'.creds == s.creds)
    && (!step.IssueCode? && !step.RedeemCode? ==> s'.codes == s.codes)
    && (!OfFinish(step) ==> s'.finishes == s.finishes)
    && (!OfExchange(step) ==> s'.exchanges == s.exchanges)
    && (!step.AuthorizeRequest? ==> s'.h.puts == s.h.puts)
    && (!step.Begin? ==> s'.h.begun == s.h.begun)
    && (!step.TakeChallenge? ==> s'.h.taken == s.h.taken)
    && (!step.AskGuard? ==> s'.h.judged == s.h.judged)
    && (!step.UpdateCount? ==> s'.h.counts == s.h.counts)
    && (!step.TakePending? ==> s'.h.consumed == s.h.consumed)
    && (!step.IssueCode? ==> s'.h.issued == s.h.issued)
    && (!step.RedeemCode? ==> s'.h.redeemed == s.h.redeemed)
    && (!step.MintToken? ==> s'.h.tokens == s.h.tokens)
  }

  function GrantFor(r: AuthzRequest, c: Credential, at: Time): CodeStores.Grant
  {
    CodeStores.Grant(r.clientId, r.redirectUri, r.scope, r.nonce, r.codeChallenge, c.subjectId, c.tenantId, at)
  }

  function ClaimsFor(cfg: Config, g: CodeStores.Grant, confirm: Option<Tokens.HashText<Tokens.Key>>, at: Time, jti: string): Tokens.Claims
  {
    Tokens.AccessClaims(cfg.issuer, cfg.audience, g.subjectId, g.tenantId, g.scope, confirm, at, jti)
  }

  function AfterRegister(s: State, id: string, uris: seq<string>): (s': State)
    ensures Framed(s, s', Register(id, uris))
  {
    if id in s.clients then s else s.(clients := s.clients[id := uris])
  }

  function AfterAddCredential(s: State, cred: Credential): (s': State)
    ensures Framed(s, s', AddCredential(cred))
  {
    s.(creds := s.creds[cred.id := cred])
  }

  function AfterStartFinish(s: State, p: nat, req: FinishRequest): (s': State)
    ensures Framed(s, s', StartFinish(p, req))
  {
    if p in s.finishes then s else s.(finishes := s.finishes[p := Asked(req)])
  }

  function AfterAuthorize(s: State, params: Params, rid: string, now: Time): (s': State)
    ensures Framed(s, s', AuthorizeRequest(params, rid))
  {
    match Validate(s.clients, params)
    case Refused(_) => s
    case Accepted(req) =>
      s.(pending := AfterPut(s.pending, rid, req, PENDING_TTL, now), h := s.h.(puts := s.h.puts[rid := Put(req, now)]))
  }

  function AfterBegin(s: State, rid: string, challenge: Bytes, now: Time): (s': State)
    ensures Framed(s, s', Begin(rid, challenge))
  {
    if rid == "" then s
    else s.(challenges := AfterPut(s.challenges, rid, challenge, CHALLENGE_TTL, now),
           h := s.h.(begun := s.h.begun[challenge := Begun(rid, now)]))
  }

  function AfterTakeChallenge(s: State, p: nat, now: Time): (s': State)
    ensures Framed(s, s', TakeChallenge(p))
  {
    if p in s.finishes && s.finishes[p].Asked? then
      var req := s.finishes[p].req;
      var base := s.(challenges := s.challenges - {req.rid});
      match Taken(s.challenges, req.rid, now)
      case None => base.(finishes := s.finishes[p := Over])
      case Some(c) => base.(finishes := s.finishes[p := Challenged(req, c)], h := s.h.(taken := s.h.taken[c := now]))
    else s
  }

  function AfterGetCredential(s: State, p: nat): (s': State)
    ensures Framed(s, s', GetCredential(p))
  {
    if p in s.finishes && s.finishes[p].Challenged? then
      var req := s.finishes[p].req;
      s.(finishes := s.finishes[p :=
        if req.credentialId in s.creds && req.decodes then Identified(req, s.finishes[p].challenge, s.creds[req.credentialId])
        else Over])
    else s
  }

  function AfterAskGuard(cfg: Config, s: State, p: nat, reachable: bool, signed: set<WebAuthn.Signed>): State
  {
    if p in s.finishes && s.finishes[p].Identified? then
      if !reachable then s.(finishes := s.finishes[p := Over])
      else
        var Identified(req, challenge, cred) := s.finishes[p];
        var verdict := WebAuthn.Verify(signed,
          WebAuthn.Expectations(cfg.rpIdHash, cfg.origin, challenge, cred.signCount), cred.publicKey, cred.keyParses, req.assertion);
        s.(finishes := s.finishes[p :=
             if verdict.Verified? then Verified(req.rid, cred, verdict.newSignCount, |s.h.judged|) else Over],
           h := s.h.(judged := s.h.judged + [Judgement(req.rid, challenge, cred, verdict)]))
    else s
  }

  function AfterUpdateCount(s: State, p: nat): (s': State)
    ensures Framed(s, s', UpdateCount(p))
  {
    if p in s.finishes && s.finishes[p].Verified? then
      var Verified(rid, cred, count, judgement) := s.finishes[p];
      var base := s.(finishes := s.finishes[p := Counted(rid, cred, judgement)]);
      if count == 0 then base
      else base.(creds := WithSignCount(s.creds, cred.id, count),
               h := s.h.(counts := s.h.counts[cred.id := CountsOf(s.h, cred.id) + [count]]))
    else s
  }

  function CountsOf(h: History, id: string): seq<nat>
  {
    if id in h.counts then h.counts[id] else []
  }

  function AfterTakePending(s: State, p: nat, now: Time): (s': State)
    ensures Framed(s, s', TakePending(p))
  {
    if p in s.finishes && s.finishes[p].Counted? then
      var Counted(rid, cred, judgement) := s.finishes[p];
      var base := s.(pending := s.pending - {rid});
      match Taken(s.pending, rid, now)
      case None => base.(finishes := s.finishes[p := Over])
      case Some(req) =>
        base.(finishes := s.finishes[p := Consumed(rid, cred, judgement, req)],
            h := s.h.(consumed := s.h.consumed[rid := Consumption(p, cred, judgement, req, now)]))
    else s
  }

  function AfterIssueCode(s: State, p: nat, random: Option<string>, now: Time): (s': State)
    ensures Framed(s, s', IssueCode(p, random))
  {
    if p in s.finishes && s.finishes[p].Consumed? then
      var Consumed(rid, cred, _, req) := s.finishes[p];
      var base := s.(finishes := s.finishes[p := Over]);
      if random.None? then base
      else
        var grant := GrantFor(req, cred, now);
        base.(codes := CodeStores.MemoryNext(s.codes, CodeStores.Event(CodeStores.Issue(random.value, grant), now)),
            h := s.h.(issued := s.h.issued[random.value := Issuance(rid, grant, now)]))
    else s
  }

  /** The token endpoint turns a request with a missing parameter away at once. */
  predicate Complete(req: TokenRequest)
  {
    req.code != "" && req.clientId != "" && req.redirectUri != "" && req.verifier != ""
  }

  function AfterStartExchange(s: State, q: nat, req: TokenRequest): (s': State)
    ensures Framed(s, s', StartExchange(q, req))
  {
    if q in s.exchanges then s else s.(exchanges := s.exchanges[q := if Complete(req) then Presented(req) else Done])
  }

  function AfterRedeemCode(s: State, q: nat, now: Time): (s': State)
    ensures Framed(s, s', RedeemCode(q))
  {
    if q in s.exchanges && s.exchanges[q].Presented? then
      var req := s.exchanges[q].req;
      var base := s.(codes := s.codes - {req.code});
      match CodeStores.RedeemFrom(s.codes, req.code, req.clientId, req.redirectUri, now)
      case Refused(_) => base.(exchanges := s.exchanges[q := Done])
      case Granted(g) =>
        base.(exchanges := s.exchanges[q := Redeemed(req, g)],
            h := s.h.(redeemed := s.h.redeemed[req.code := Redemption(q, req.clientId, req.redirectUri, now)]))
    else s
  }

  function AfterCheckPkce(s: State, q: nat): (s': State)
    ensures Framed(s, s', CheckPkce(q))
  {
    if q in s.exchanges && s.exchanges[q].Redeemed? then
      var Redeemed(req, g) := s.exchanges[q];
      s.(exchanges := s.exchanges[q := if VerifyPkce(req.verifier, g.codeChallenge).None? then KeyChecked(req, g) else Done])
    else s
  }

  /** `proof` is None on a server set up without DPoP. */
  function AfterCheckProof(s: State, q: nat, proof: Option<Dpop.Outcome>): (s': State)
    ensures Framed(s, s', CheckProof(q, proof))
  {
    if q in s.exchanges && s.exchanges[q].KeyChecked? then
      var KeyChecked(req, g) := s.exchanges[q];
      s.(exchanges := s.exchanges[q :=
        if proof.None? then Proved(req, g, None)
        else if proof.value.Accepted? then Proved(req, g, Some(proof.value.thumbprint))
        else Done])
    else s
  }

  function AfterMintToken(cfg: Config, s: State, q: nat, jti: Option<string>, now: Time): State
  {
    if q in s.exchanges && s.exchanges[q].Proved? then
      var Proved(req, g, confirm) := s.exchanges[q];
      var base := s.(exchanges := s.exchanges[q := Done]);
      if jti.None? then base
      else base.(h := s.h.(tokens := s.h.tokens + [Minted(req.code, req.verifier, ClaimsFor(cfg, g, confirm, now, jti.value), now)]))
    else s
  }

  function Next(cfg: Config, s: State, e: Event): State
  {
    match e.step
    case Register(id, uris) => AfterRegister(s, id, uris)
    case AddCredential(cred) => AfterAddCredential(s, cred)
    case AuthorizeRequest(params, rid) => AfterAuthorize(s, params, rid, e.now)
    case Begin(rid, challenge) => AfterBegin(s, rid, challenge, e.now)
    case StartFinish(p, req) => AfterStartFinish(s, p, req)
    case TakeChallenge(p) => AfterTakeChallenge(s, p, e.now)
    case GetCredential(p) => AfterGetCredential(s, p)
    case AskGuard(p, reachable, signed) => AfterAskGuard(cfg, s, p, reachable, signed)
    case UpdateCount(p) => AfterUpdateCount(s, p)
    case TakePending(p) => AfterTakePending(s, p, e.now)
    case IssueCode(p, random) => AfterIssueCode(s, p, random, e.now)
    case StartExchange(q, req) => AfterStartExchange(s, q, req)
    case RedeemCode(q) => AfterRedeemCode(s, q, e.now)
    case CheckPkce(q) => AfterCheckPkce(s, q)
    case CheckProof(q, proof) => AfterCheckProof(s, q, proof)
    case MintToken(q, jti) => AfterMintToken(cfg, s, q, jti, e.now)
  }

  /** Ideal randomness: no drawn value was ever drawn before. */
  ghost predicate Fresh(s: State, step: Step)
  {
    match step
    case AuthorizeRequest(_, rid) => rid !in s.h.puts
    case Begin(_, challenge) => challenge !in s.h.begun
    case IssueCode(_, random) => random.Some? ==> random.value !in s.h.issued
    case _ => true
  }

  ghost function StateAt(cfg: Config, run: seq<Event>, n: nat): State
    requires n <= |run|
  {
    if n == 0 then INITIAL else Next(cfg, StateAt(cfg, run, n - 1), run[n - 1])
  }

  ghost predicate FreshAt(cfg: Config, run: seq<Event>, n: nat)
    requires n < |run|
  {
    Fresh(StateAt(cfg, run, n), run[n].step)
  }

  /** Any interleaving of steps under one nondecreasing clock. */
  ghost predicate ValidRun(cfg: Config, run: seq<Event>)
  {
    && (forall i, j | 0 <= i <= j < |run| :: run[i].now <= run[j].now)
    && forall n | 0 <= n < |run| :: FreshAt(cfg, run, n)
  }
}
