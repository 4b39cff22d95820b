/** The protocol lets honest users in: the counterpart of its safety. */
module HonestFlow {
  import opened Common
  import opened Authorize
  import opened LoginStores
  import opened Protocol
  import opened ProtocolInvariants
  import opened Handlers
  import CodeStores
  import Dpop
  import Tokens
  import WebAuthn

  /** A user asks, begins, and answers the challenge in time with a registered
      passkey whose counter is zero or ahead. */
  datatype Login = Login(
    params: Params,
    rid: string,
    challenge: Bytes,
    askedAt: Time,
    begunAt: Time,
    flags: Byte,
    count: nat,
    extensions: Bytes,
    call: FinishCall)

  ghost predicate HonestLogin(cfg: Config, s: State, l: Login)
  {
    && Validate(s.clients, l.params).Accepted? && l.rid != "" && |cfg.rpIdHash| == 32
    && l.askedAt <= l.call.consumedAt <= l.askedAt + 10 * MINUTE
    && l.begunAt <= l.call.takenAt <= l.begunAt + 2 * MINUTE
    && l.call.reachable && l.call.random.Some?
    && l.call.req.rid == l.rid && l.call.req.decodes && l.call.req.credentialId in s.creds
    && Answers(cfg, s.creds[l.call.req.credentialId], l)
  }

  function Client(cfg: Config, challenge: Bytes): WebAuthn.ClientData
  {
    WebAuthn.ClientData(Some("webauthn.get"), Some(Some(challenge)), Some(cfg.origin))
  }

  ghost predicate Answers(cfg: Config, cred: Credential, l: Login)
  {
    var data := WebAuthn.AuthenticatorData(cfg.rpIdHash, l.flags, l.count, l.extensions);
    && cred.keyParses && l.flags % 2 == 1 && l.count < 0x1_0000_0000 && (l.count == 0 || l.count > cred.signCount)
    && l.call.req.assertion == WebAuthn.Assertion(data, Some(Client(cfg, l.challenge)), true)
    && WebAuthn.Signed(cred.publicKey, data, Client(cfg, l.challenge)) in l.call.signed
  }

  ghost function Begun(s: State, l: Login): State
  {
    AfterBegin(AfterAuthorize(s, l.params, l.rid, l.askedAt), l.rid, l.challenge, l.begunAt)
  }

  lemma BegunIsReady(cfg: Config, s: State, l: Login)
    requires HonestLogin(cfg, s, l)
    ensures var s', request := Begun(s, l), Validate(s.clients, l.params).request;
      && Taken(s'.challenges, l.rid, l.call.takenAt) == Some(l.challenge)
      && Taken(s'.pending, l.rid, l.call.consumedAt) == Some(request)
      && s'.creds == s.creds && s'.finishes == s.finishes && s'.exchanges == s.exchanges && s'.h.tokens == s.h.tokens
  {
    hide Validate;
    hide Answers;
  }

  lemma GuardVerifies(cfg: Config, cred: Credential, l: Login)
    requires |cfg.rpIdHash| == 32 && l.call.reachable && Answers(cfg, cred, l)
    ensures GuardAnswer(cfg, l.call, l.challenge, cred) == Some(WebAuthn.Verified(l.count))
  {
    var exp := WebAuthn.Expectations(cfg.rpIdHash, cfg.origin, l.challenge, cred.signCount);
    WebAuthn.HonestLogin(l.call.signed, exp, cred.publicKey, l.flags, l.count, l.extensions);
    hide WebAuthn.Verify;
    hide WebAuthn.AuthenticatorData;
  }

  /** What the code has to stand for. */
  ghost function GrantAsked(l: Login, cred: Credential): CodeStores.Grant
  {
    CodeStores.Grant(l.params.clientId, l.params.redirectUri, l.params.scope, l.params.nonce, l.params.codeChallenge,
      cred.subjectId, cred.tenantId, l.call.issuedAt)
  }

  /** The finish endpoint then issues a code that stands for the request as made and
      for the passkey's subject and tenant. */
  lemma HonestLoginGetsCode(cfg: Config, s: State, l: Login, p: nat)
    requires HonestLogin(cfg, s, l) && p !in s.finishes
    ensures var s7, cred := FinishAfter(cfg, Begun(s, l), p, l.call, FINISH_STEPS), s.creds[l.call.req.credentialId];
      && Lookup(s7.codes, l.call.random.value) == Some(Expiring(GrantAsked(l, cred), l.call.issuedAt + 60 * SECOND))
      && s7.exchanges == s.exchanges && s7.h.tokens == s.h.tokens
  {
    hide FinishAfter;
    hide FinishEvent;
    hide Next;
    hide Begun;
    hide Taken;
    hide GuardAnswer;
    hide WithSignCount;
    AcceptedOnRails(s.clients, l.params);
    hide Validate;
    hide Answers;
    BegunIsReady(cfg, s, l);
    GuardVerifies(cfg, s.creds[l.call.req.credentialId], l);
    var b, c := Begun(s, l), l.call;
    AnsweredCall(cfg, b, p, c, l.challenge, l.count);
    FinishLeavesExchanges(cfg, b, p, c, 5);
    FinishLeavesExchanges(cfg, b, p, c, FINISH_STEPS);
    var s5 := FinishAfter(cfg, b, p, c, 5);
    FinishNext(cfg, b, p, c, 5);
    Consumes(cfg, s5, p, c);
    FinishNext(cfg, b, p, c, 6);
    Issues(cfg, FinishAfter(cfg, b, p, c, 6), p, c);
  }

  /** The first five steps of a call whose challenge is there and whose answer verifies. */
  lemma AnsweredCall(cfg: Config, b: State, p: nat, c: FinishCall, challenge: Bytes, count: nat)
    requires p !in b.finishes && Taken(b.challenges, c.req.rid, c.takenAt) == Some(challenge)
    requires c.req.decodes && c.req.credentialId in b.creds
    requires GuardAnswer(cfg, c, challenge, b.creds[c.req.credentialId]) == Some(WebAuthn.Verified(count))
    ensures var s5 := FinishAfter(cfg, b, p, c, 5);
      && s5.pending == b.pending && p in s5.finishes && s5.finishes[p].Counted?
      && s5.finishes[p].rid == c.req.rid && s5.finishes[p].cred == b.creds[c.req.credentialId]
  {
    hide FinishAfter;
    hide FinishEvent;
    hide Next;
    hide Taken;
    hide GuardAnswer;
    hide WithSignCount;
    FinishNext(cfg, b, p, c, 0);
    Starts(cfg, b, p, c);
    FinishNext(cfg, b, p, c, 1);
    Takes(cfg, FinishAfter(cfg, b, p, c, 1), p, c);
    FinishNext(cfg, b, p, c, 2);
    Gets(cfg, FinishAfter(cfg, b, p, c, 2), p, c);
    FinishNext(cfg, b, p, c, 3);
    Asks(cfg, FinishAfter(cfg, b, p, c, 3), p, c);
    FinishNext(cfg, b, p, c, 4);
    Counts(cfg, FinishAfter(cfg, b, p, c, 4), p, c);
  }

  lemma {:induction false} FinishLeavesExchanges(cfg: Config, s: State, p: nat, c: FinishCall, k: nat)
    requires k <= FINISH_STEPS
    ensures FinishAfter(cfg, s, p, c, k).exchanges == s.exchanges && FinishAfter(cfg, s, p, c, k).h.tokens == s.h.tokens
  {
    hide Next;
    if k > 0 {
      FinishLeavesExchanges(cfg, s, p, c, k - 1);
      StepFrame(cfg, FinishAfter(cfg, s, p, c, k - 1), FinishEvent(p, c, k - 1));
    }
  }

  /** The proof check of a server that asks for one: its address and its replay cache. */
  datatype Door = Door(tokenUri: Option<Dpop.Uri>, items: map<string, Time>, max: nat)

  /** What the server then makes of the proof. */
  function Outcome(x: ExchangeCall, d: Option<Door>): Option<Dpop.Outcome>
  {
    if d.None? then None
    else if x.proof.None? then Some(Dpop.Refused(Dpop.Malformed))
    else Some(Dpop.Judge(x.proofs, d.value.items, d.value.max, x.proof.value, Dpop.AtTokenEndpoint(d.value.tokenUri), x.provedAt, x.sweptAt))
  }

  /** The exchange of that code, in time, by its client with its verifier, and with a new
      and fresh proof for a POST to the token endpoint, where the server asks for one. */
  ghost predicate HonestExchange(x: ExchangeCall, d: Option<Door>, g: CodeStores.Grant, issuedAt: Time)
  {
    && x.req.code != "" && x.req.clientId != "" && x.req.redirectUri != "" && x.redeemedAt <= issuedAt + 60 * SECOND
    && x.req.clientId == g.clientId && x.req.redirectUri == g.redirectUri
    && Tokens.Sha256(x.req.verifier) == g.codeChallenge && 43 <= |x.req.verifier| <= 128
    && x.random.Some? && x.signs && (d.Some? ==> ShowsKey(x, d.value.tokenUri, d.value.items, d.value.max))
  }

  ghost function KeyShown(x: ExchangeCall, d: Option<Door>): Option<Tokens.Key>
    requires d.Some? ==> ShowsKey(x, d.value.tokenUri, d.value.items, d.value.max)
  {
    if d.None? then None else x.proof.value.header.value.key
  }

  lemma ShownIsAccepted(x: ExchangeCall, d: Door)
    requires ShowsKey(x, d.tokenUri, d.items, d.max)
    ensures Outcome(x, Some(d)) == Some(Dpop.Accepted(Tokens.Sha256(KeyShown(x, Some(d)).value), x.proof.value.payload.value.jti))
  {
    Dpop.PassesExactly(x.proofs, x.proof.value, Dpop.AtTokenEndpoint(d.tokenUri), x.provedAt);
    Dpop.AdmitsTheNew(d.items, d.max, x.proof.value.payload.value.jti, x.sweptAt);
    hide Dpop.Check;
    hide Dpop.Admits;
    hide Dpop.IsNew;
  }

  lemma HonestExchangeGetsToken(cfg: Config, s: State, q: nat, x: ExchangeCall, d: Option<Door>, g: CodeStores.Grant, issuedAt: Time)
    requires q !in s.exchanges && Lookup(s.codes, x.req.code) == Some(Expiring(g, issuedAt + 60 * SECOND))
    requires HonestExchange(x, d, g, issuedAt)
    ensures ExchangeAfter(cfg, s, q, x, Outcome(x, d), EXCHANGE_STEPS).h.tokens
         == s.h.tokens + [Minted(x.req.code, x.req.verifier, TokenOf(cfg, g, x, KeyShown(x, d)), x.mintedAt)]
  {
    var proof := Outcome(x, d);
    if d.Some? {
      ShownIsAccepted(x, d.value);
    }
    TokenIsStamped(cfg, g, x, KeyShown(x, d));
    hide Outcome;
    hide ShowsKey;
    hide ExchangeAfter;
    hide ExchangeEvent;
    hide Next;
    hide ClaimsFor;
    hide TokenOf;
    hide Tokens.Stamped;
    ExchangeNext(cfg, s, q, x, proof, 0);
    Opens(cfg, s, q, x, proof);
    ExchangeNext(cfg, s, q, x, proof, 1);
    Redeems(cfg, ExchangeAfter(cfg, s, q, x, proof, 1), q, x, proof);
    ExchangeNext(cfg, s, q, x, proof, 2);
    ChecksPkce(cfg, ExchangeAfter(cfg, s, q, x, proof, 2), q, x, proof);
    ExchangeNext(cfg, s, q, x, proof, 3);
    ChecksProof(cfg, ExchangeAfter(cfg, s, q, x, proof, 3), q, x, proof);
    ExchangeNext(cfg, s, q, x, proof, 4);
    Mints(cfg, ExchangeAfter(cfg, s, q, x, proof, 4), q, x, proof);
  }

  /** From any state: authorize, begin, finish and exchange, each in time, end in one
      more token, for the passkey's subject and tenant, with the scope asked for and
      bound to the key shown. */
  lemma HonestUserGetsToken(cfg: Config, s: State, l: Login, p: nat, q: nat, x: ExchangeCall, d: Option<Door>)
    requires HonestLogin(cfg, s, l) && p !in s.finishes && q !in s.exchanges
    requires x.req.code == l.call.random.value
    requires HonestExchange(x, d, GrantAsked(l, s.creds[l.call.req.credentialId]), l.call.issuedAt)
    ensures var cred := s.creds[l.call.req.credentialId];
      var claims := Tokens.Claims(cfg.issuer, cred.subjectId, cfg.audience, cred.tenantId, l.params.scope,
        Unix(x.mintedAt), Unix(x.mintedAt), Unix(x.mintedAt + 10 * MINUTE), x.random.value,
        if d.None? then None else Some(Tokens.Sha256(x.proof.value.header.value.key.value)));
      ExchangeAfter(cfg, FinishAfter(cfg, Begun(s, l), p, l.call, FINISH_STEPS), q, x, Outcome(x, d), EXCHANGE_STEPS).h.tokens
      == s.h.tokens + [Minted(l.call.random.value, x.req.verifier, claims, x.mintedAt)]
  {
    hide FinishAfter;
    hide ExchangeAfter;
    hide Begun;
    hide Outcome;
    hide FinishEvent;
    hide ExchangeEvent;
    hide Next;
    assert l.call.req.credentialId in s.creds && l.call.random.Some?;
    assert x.random.Some? && (d.Some? ==> ShowsKey(x, d.value.tokenUri, d.value.items, d.value.max));
    hide ShowsKey;
    hide HonestExchange;
    HonestLoginGetsCode(cfg, s, l, p);
    hide HonestLogin;
    HonestExchangeGetsToken(cfg, FinishAfter(cfg, Begun(s, l), p, l.call, FINISH_STEPS), q, x, d,
      GrantAsked(l, s.creds[l.call.req.credentialId]), l.call.issuedAt);
  }
}
