/** Envelope encryption in the Guard over an ideal authenticated cipher. */
module Envelope {
  import opened Common
  import opened Framing
  import opened Gate
  import RateLimiter
  import WebAuthn

  const NONCE_LEN := 12
  const TAG_LEN := 16
  const DEK_LEN := 32

  /** What one sealing put together. */
  datatype Sealing = Sealing(key: Bytes, aad: Bytes, plaintext: Bytes)

  /** The ideal cipher's ledger: bytes open only as they were sealed. */
  type Ledger = map<Bytes, Sealing>

  datatype ProviderError = UnknownKey | Backend | Decrypt

  datatype Result<+T> = Ok(value: T) | Err(error: ProviderError)

  function Open(ledger: Ledger, key: Bytes, aad: Bytes, sealed: Bytes): Result<Bytes>
  {
    if |sealed| <= NONCE_LEN then Err(Decrypt)
    else if |key| != DEK_LEN then Err(Backend)
    else if sealed in ledger && ledger[sealed].key == key && ledger[sealed].aad == aad then Ok(ledger[sealed].plaintext)
    else Err(Decrypt)
  }

  /** `out` is nonce and ciphertext as they come out of this sealing. */
  function Seal(key: Bytes, aad: Bytes, plaintext: Bytes, out: Bytes): Result<(Bytes, Sealing)>
  {
    if |key| != DEK_LEN then Err(Backend) else Ok((out, Sealing(key, aad, plaintext)))
  }

  ghost predicate FreshOutput(ledger: Ledger, plaintext: Bytes, out: Bytes)
  {
    out !in ledger && |out| == NONCE_LEN + |plaintext| + TAG_LEN
  }

  /** Keys by handle, and the handle of the key encryption key. */
  datatype Keys = Keys(material: map<string, Bytes>, kek: string)

  function UnwrapDek(keys: Keys, ledger: Ledger, tenant: Slice, wrapped: Bytes): Result<Bytes>
  {
    if keys.kek !in keys.material then Err(UnknownKey)
    else Open(ledger, keys.material[keys.kek], AadOf(DOMAIN_DEK_WRAP, tenant), wrapped)
  }

  function DecryptWith(keys: Keys, ledger: Ledger, tenant: Slice, wrapped: Bytes, ciphertext: Bytes): Result<Bytes>
  {
    match UnwrapDek(keys, ledger, tenant, wrapped)
    case Err(e) => Err(e)
    case Ok(dek) => Open(ledger, dek, AadOf(DOMAIN_FIELD, tenant), ciphertext)
  }

  /** The random values one encryption may draw. */
  datatype Draw = Draw(dek: Bytes, wrapped: Bytes, ciphertext: Bytes)

  /** Sealings so far, and every data key ever drawn. */
  datatype Vault = Vault(ledger: Ledger, deks: set<Bytes>)

  datatype Reply<+T> = Done(value: T) | Refused(status: Status)

  datatype Encrypted = Encrypted(ciphertext: Bytes, wrappedDek: Bytes)

  function FailStatus(e: ProviderError): Status
  {
    if e == Decrypt then PermissionDenied else Internal
  }

  datatype Request =
    | Encrypt(ctx: Option<Context>, wrappedDek: Bytes, plaintext: Bytes, draw: Draw)
    | DecryptField(ctx: Option<Context>, wrappedDek: Bytes, ciphertext: Bytes)
  {
    function Want(): Purpose { if Encrypt? then RowEncrypt else RowDecrypt }
  }

  /** One request and the rate limiter's answer to it. */
  datatype Event = Event(request: Request, withinBudget: bool)

  /** None when the request reaches the cryptography. */
  function Stopped(e: Event): Option<Status>
  {
    var refusal := Validate(e.request.ctx, e.request.Want(), true);
    if refusal.Some? then refusal
    else if !e.withinBudget then Some(ResourceExhausted)
    else None
  }

  /** The vault after the data key of a first write was minted, and the key to use. */
  function Minted(keys: Keys, v: Vault, tenant: Slice, wrapped: Bytes, draw: Draw): Result<(Vault, Bytes)>
  {
    if wrapped != [] then Ok((v, wrapped))
    else if keys.kek !in keys.material then Err(UnknownKey)
    else
      match Seal(keys.material[keys.kek], AadOf(DOMAIN_DEK_WRAP, tenant), draw.dek, draw.wrapped)
      case Err(e) => Err(e)
      case Ok((out, sealing)) => Ok((Vault(v.ledger[out := sealing], v.deks + {draw.dek}), out))
  }

  function EncryptStep(keys: Keys, v: Vault, tenant: Slice, wrapped: Bytes, plaintext: Bytes, draw: Draw): (Vault, Reply<Encrypted>)
  {
    match Minted(keys, v, tenant, wrapped, draw)
    case Err(e) => (v, Refused(FailStatus(e)))
    case Ok((v', w)) =>
      match UnwrapDek(keys, v'.ledger, tenant, w)
      case Err(e) => (v', Refused(FailStatus(e)))
      case Ok(dek) =>
        match Seal(dek, AadOf(DOMAIN_FIELD, tenant), plaintext, draw.ciphertext)
        case Err(e) => (v', Refused(FailStatus(e)))
        case Ok((out, sealing)) => (v'.(ledger := v'.ledger[out := sealing]), Done(Encrypted(out, w)))
  }

  function Next(keys: Keys, v: Vault, e: Event): Vault
  {
    if Stopped(e).Some? || e.request.DecryptField? then v
    else EncryptStep(keys, v, e.request.ctx.value.tenantId, e.request.wrappedDek, e.request.plaintext, e.request.draw).0
  }

  function EncryptReply(keys: Keys, v: Vault, e: Event): Reply<Encrypted>
    requires e.request.Encrypt?
  {
    if Stopped(e).Some? then Refused(Stopped(e).value)
    else EncryptStep(keys, v, e.request.ctx.value.tenantId, e.request.wrappedDek, e.request.plaintext, e.request.draw).1
  }

  function DecryptReply(keys: Keys, v: Vault, e: Event): Reply<Bytes>
    requires e.request.DecryptField?
  {
    if Stopped(e).Some? then Refused(Stopped(e).value)
    else
      match DecryptWith(keys, v.ledger, e.request.ctx.value.tenantId, e.request.wrappedDek, e.request.ciphertext)
      case Ok(p) => Done(p)
      case Err(error) => Refused(FailStatus(error))
  }

  // ------------------------------------------------------------ the service

  datatype Outcome = Rejected | RateLimited | Denied | Ok_ | Verified | Refuted(reason: WebAuthn.Rejection)

  datatype AuditLine = AuditLine(op: string, tenant: Slice, request: Slice, outcome: Outcome)

  /** Whom and what request a line is about; empty without a context. */
  function Line(op: string, ctx: Option<Context>, outcome: Outcome): (line: AuditLine)
    ensures line.op == op && line.outcome == outcome
    ensures ctx.Some? ==> line.tenant == ctx.value.tenantId && line.request == ctx.value.requestId
    ensures ctx.None? ==> line.tenant == [] && line.request == []
  {
    if ctx.Some? then AuditLine(op, ctx.value.tenantId, ctx.value.requestId, outcome) else AuditLine(op, [], [], outcome)
  }

  /** What the gateway sends along of a registered passkey. */
  datatype StoredCredential = StoredCredential(publicKey: Bytes, keyParses: bool, signCount: nat)

  /** A question about one assertion; absent parts are None. */
  datatype Question = Question(
    ctx: Option<Context>,
    credential: Option<StoredCredential>,
    assertion: Option<WebAuthn.Assertion>,
    rpIdHash: Bytes,
    origin: string,
    challenge: Bytes)
  {
    function Judged(signed: set<WebAuthn.Signed>): WebAuthn.Verdict
      requires credential.Some? && assertion.Some?
    {
      var c := credential.value;
      WebAuthn.Verify(signed, WebAuthn.Expectations(rpIdHash, origin, challenge, c.signCount), c.publicKey, c.keyParses, assertion.value)
    }
  }

  datatype Judgement = Judgement(verified: bool, newSignCount: nat)

  /** The reply to a question and its audit outcome. A rejection is an answer, not an
      error, and hands back the stored counter. */
  function AssertionReply(signed: set<WebAuthn.Signed>, q: Question, within: bool): (Reply<Judgement>, Outcome)
  {
    var refusal := Validate(q.ctx, PasskeyLogin, false);
    if refusal.Some? then (Refused(refusal.value), Rejected)
    else if !within then (Refused(ResourceExhausted), RateLimited)
    else if q.credential.None? || q.assertion.None? then (Refused(InvalidArgument), Rejected)
    else
      match q.Judged(signed)
      case Verified(n) => (Done(Judgement(true, n)), Outcome.Verified)
      case Rejected(reason) => (Done(Judgement(false, q.credential.value.signCount)), Refuted(reason))
  }

  /** The Guard vouches for an assertion exactly when a passkey login names a request and
      a tenant, is in budget, and carries a credential whose key signed it: over the
      challenge asked about, for the origin and relying party asked about, the user
      present, and with a counter that is zero or ahead of the stored one, which is what
      it reports. Every other answer hands back the stored counter. */
  lemma VouchedMeans(signed: set<WebAuthn.Signed>, q: Question, within: bool, n: nat)
    ensures AssertionReply(signed, q, within).0 == Done(Judgement(true, n)) <==>
      && q.ctx.Some? && q.ctx.value.purpose == 1 && q.ctx.value.requestId != [] && q.ctx.value.tenantId != [] && within
      && q.credential.Some? && q.assertion.Some?
      && var c, a := q.credential.value, q.assertion.value;
         && a.clientData == Some(WebAuthn.ClientData(Some("webauthn.get"), Some(Some(q.challenge)), Some(q.origin)))
         && |a.authenticatorData| >= 37 && a.authenticatorData[..32] == q.rpIdHash && a.authenticatorData[32] % 2 == 1
         && n == WebAuthn.SignCount(a.authenticatorData) && (n == 0 || n > c.signCount)
         && c.keyParses && a.signatureParses && WebAuthn.Signed(c.publicKey, a.authenticatorData, a.clientData.value) in signed
    ensures AssertionReply(signed, q, within).0 == Done(Judgement(false, n)) ==> q.credential.Some? && n == q.credential.value.signCount
  {
    if q.credential.Some? && q.assertion.Some? {
      var c := q.credential.value;
      WebAuthn.VerifiedExactly(signed, WebAuthn.Expectations(q.rpIdHash, q.origin, q.challenge, c.signCount), c.publicKey, c.keyParses, q.assertion.value);
    }
    hide WebAuthn.Verify;
  }

  class Guard {
    const keys: Keys
    const limiter: RateLimiter.RateLimiter
    var vault: Vault
    var audit: seq<AuditLine>

    constructor (keys: Keys)
      ensures this.keys == keys && fresh(limiter) && limiter.config.Valid()
      ensures limiter.config == RateLimiter.Config(120, 20.0, 10_000) && limiter.Contents() == RateLimiter.State(map[], map[])
      ensures vault == Vault(map[], {}) && audit == []
    {
      this.keys := keys;
      limiter := new RateLimiter.RateLimiter(120, 20.0);
      vault, audit := Vault(map[], {}), [];
    }

    /** Purpose first, budget second, and only then the work; one audit line each. */
    method EncryptField(ctx: Option<Context>, wrappedDek: Bytes, plaintext: Bytes, draw: Draw, now: real)
      returns (r: Reply<Encrypted>, ghost e: Event)
      requires limiter.config.Valid()
      modifies this`vault, this`audit, limiter`buckets, limiter`global
      ensures e.request == Encrypt(ctx, wrappedDek, plaintext, draw)
      ensures Validate(ctx, RowEncrypt, true).Some? ==> limiter.Contents() == old(limiter.Contents())
      ensures Validate(ctx, RowEncrypt, true).None? ==>
        BudgetAnswer(limiter.config, old(limiter.Contents()), limiter.Contents(), ctx.value.tenantId, "encrypt_field", now, e.withinBudget)
      ensures r == EncryptReply(keys, old(vault), e) && vault == Next(keys, old(vault), e)
      ensures Validate(ctx, RowEncrypt, true).Some? ==> r == Refused(Validate(ctx, RowEncrypt, true).value) && vault == old(vault)
      ensures Validate(ctx, RowEncrypt, true).None? && !e.withinBudget ==> r == Refused(ResourceExhausted) && vault == old(vault)
      ensures wrappedDek != [] ==> vault.deks == old(vault).deks && (r.Done? ==> r.value.wrappedDek == wrappedDek)
      ensures wrappedDek == [] && r.Done? ==> vault.deks == old(vault).deks + {draw.dek}
      ensures audit == old(audit) + [Line("encrypt_field", ctx,
        if Validate(ctx, RowEncrypt, true).Some? then Rejected else if !e.withinBudget then RateLimited else if r.Done? then Ok_ else Denied)]
    {
      e := Event(Encrypt(ctx, wrappedDek, plaintext, draw), true);
      var refusal := Validate(ctx, RowEncrypt, true);
      if refusal.Some? {
        audit := audit + [Line("encrypt_field", ctx, Rejected)];
        return Refused(refusal.value), e;
      }
      var tenant := ctx.value.tenantId;
      var within := WithinLimits("encrypt_field", ctx, tenant, now);
      e := e.(withinBudget := within);
      if !within {
        return Refused(ResourceExhausted), e;
      }
      var wrapped := wrappedDek;
      if wrapped == [] {
        var minted := GenerateWrappedDek(tenant, draw);
        if minted.Err? {
          audit := audit + [Line("encrypt_field", ctx, Denied)];
          return Refused(FailStatus(minted.error)), e;
        }
        wrapped := minted.value;
      }
      var sealed := EncryptUnder(tenant, wrapped, plaintext, draw.ciphertext);
      if sealed.Err? {
        audit := audit + [Line("encrypt_field", ctx, Denied)];
        return Refused(FailStatus(sealed.error)), e;
      }
      audit := audit + [Line("encrypt_field", ctx, Ok_)];
      r := Done(Encrypted(sealed.value, wrapped));
    }

    method Decrypt(ctx: Option<Context>, wrappedDek: Bytes, ciphertext: Bytes, now: real)
      returns (r: Reply<Bytes>, ghost e: Event)
      requires limiter.config.Valid()
      modifies this`audit, limiter`buckets, limiter`global
      ensures e.request == DecryptField(ctx, wrappedDek, ciphertext)
      ensures Validate(ctx, RowDecrypt, true).Some? ==> limiter.Contents() == old(limiter.Contents())
      ensures Validate(ctx, RowDecrypt, true).None? ==>
        BudgetAnswer(limiter.config, old(limiter.Contents()), limiter.Contents(), ctx.value.tenantId, "decrypt_field", now, e.withinBudget)
      ensures r == DecryptReply(keys, vault, e)
      ensures Validate(ctx, RowDecrypt, true).Some? ==> r == Refused(Validate(ctx, RowDecrypt, true).value)
      ensures Validate(ctx, RowDecrypt, true).None? && !e.withinBudget ==> r == Refused(ResourceExhausted)
      ensures audit == old(audit) + [Line("decrypt_field", ctx,
        if Validate(ctx, RowDecrypt, true).Some? then Rejected else if !e.withinBudget then RateLimited else if r.Done? then Ok_ else Denied)]
    {
      e := Event(DecryptField(ctx, wrappedDek, ciphertext), true);
      var refusal := Validate(ctx, RowDecrypt, true);
      if refusal.Some? {
        audit := audit + [Line("decrypt_field", ctx, Rejected)];
        return Refused(refusal.value), e;
      }
      var tenant := ctx.value.tenantId;
      var within := WithinLimits("decrypt_field", ctx, tenant, now);
      e := e.(withinBudget := within);
      if !within {
        return Refused(ResourceExhausted), e;
      }
      match DecryptWith(keys, vault.ledger, tenant, wrappedDek, ciphertext) {
        case Ok(plaintext) =>
          audit := audit + [Line("decrypt_field", ctx, Ok_)];
          r := Done(plaintext);
        case Err(error) =>
          audit := audit + [Line("decrypt_field", ctx, Denied)];
          r := Refused(FailStatus(error));
      }
    }

    /** `signed` is what authenticators' keys ever signed. */
    method VerifyAssertion(signed: set<WebAuthn.Signed>, q: Question, now: real) returns (r: Reply<Judgement>, ghost within: bool)
      requires limiter.config.Valid()
      modifies this`audit, limiter`buckets, limiter`global
      ensures Validate(q.ctx, PasskeyLogin, false).Some? ==> limiter.Contents() == old(limiter.Contents())
      ensures Validate(q.ctx, PasskeyLogin, false).None? ==>
        BudgetAnswer(limiter.config, old(limiter.Contents()), limiter.Contents(), q.ctx.value.tenantId, "verify_assertion", now, within)
      ensures r == AssertionReply(signed, q, within).0
      ensures Validate(q.ctx, PasskeyLogin, false).Some? ==> r == Refused(Validate(q.ctx, PasskeyLogin, false).value)
      ensures Validate(q.ctx, PasskeyLogin, false).None? && !within ==> r == Refused(ResourceExhausted)
      ensures Validate(q.ctx, PasskeyLogin, false).None? && within ==>
        (q.credential.None? || q.assertion.None? ==> r == Refused(InvalidArgument)) && (q.credential.Some? && q.assertion.Some? ==> r.Done?)
      ensures audit == old(audit) + [Line("verify_assertion", q.ctx, AssertionReply(signed, q, within).1)]
    {
      within := true;
      var refusal := Validate(q.ctx, PasskeyLogin, false);
      if refusal.Some? {
        audit := audit + [Line("verify_assertion", q.ctx, Rejected)];
        return Refused(refusal.value), within;
      }
      var allowed := WithinLimits("verify_assertion", q.ctx, q.ctx.value.tenantId, now);
      within := allowed;
      if !allowed {
        return Refused(ResourceExhausted), within;
      }
      if q.credential.None? || q.assertion.None? {
        audit := audit + [Line("verify_assertion", q.ctx, Rejected)];
        return Refused(InvalidArgument), within;
      }
      match q.Judged(signed) {
        case Verified(n) =>
          audit := audit + [Line("verify_assertion", q.ctx, Outcome.Verified)];
          r := Done(Judgement(true, n));
        case Rejected(reason) =>
          audit := audit + [Line("verify_assertion", q.ctx, Refuted(reason))];
          r := Done(Judgement(false, q.credential.value.signCount));
      }
    }

    /** Spends one token; a refusal is audited here. */
    method WithinLimits(op: string, ctx: Option<Context>, tenant: Slice, now: real) returns (within: bool)
      requires limiter.config.Valid()
      modifies this`audit, limiter`buckets, limiter`global
      ensures BudgetAnswer(limiter.config, old(limiter.Contents()), limiter.Contents(), tenant, op, now, within)
      ensures audit == if within then old(audit) else old(audit) + [Line(op, ctx, RateLimited)]
    {
      ghost var call;
      within, call := limiter.Allow(tenant, op, now);
      if !within {
        audit := audit + [Line(op, ctx, RateLimited)];
      }
    }

    method GenerateWrappedDek(tenant: Slice, draw: Draw) returns (r: Result<Bytes>)
      modifies this`vault
      ensures match Minted(keys, old(vault), tenant, [], draw)
              case Err(e) => r == Err(e) && vault == old(vault)
              case Ok((v, w)) => r == Ok(w) && vault == v
    {
      if keys.kek !in keys.material {
        return Err(UnknownKey);
      }
      var aad := Aad(DOMAIN_DEK_WRAP, tenant);
      var sealed := Seal(keys.material[keys.kek], aad, draw.dek, draw.wrapped);
      if sealed.Err? {
        return Err(sealed.error);
      }
      vault := Vault(vault.ledger[sealed.value.0 := sealed.value.1], vault.deks + {draw.dek});
      r := Ok(sealed.value.0);
    }

    method EncryptUnder(tenant: Slice, wrapped: Bytes, plaintext: Bytes, out: Bytes) returns (r: Result<Bytes>)
      modifies this`vault
      ensures match UnwrapDek(keys, old(vault).ledger, tenant, wrapped)
              case Err(e) => r == Err(e) && vault == old(vault)
              case Ok(dek) =>
                match Seal(dek, AadOf(DOMAIN_FIELD, tenant), plaintext, out)
                case Err(e) => r == Err(e) && vault == old(vault)
                case Ok((c, sealing)) => r == Ok(c) && vault == old(vault).(ledger := old(vault).ledger[c := sealing])
    {
      var dek := UnwrapDek(keys, vault.ledger, tenant, wrapped);
      if dek.Err? {
        return Err(dek.error);
      }
      var aad := Aad(DOMAIN_FIELD, tenant);
      var sealed := Seal(dek.value, aad, plaintext, out);
      if sealed.Err? {
        return Err(sealed.error);
      }
      vault := vault.(ledger := vault.ledger[sealed.value.0 := sealed.value.1]);
      r := Ok(sealed.value.0);
    }
  }

  ghost predicate BudgetAnswer(c: RateLimiter.Config, s: RateLimiter.State, s': RateLimiter.State, tenant: Slice, op: string, now: real, within: bool)
  {
    exists e: RateLimiter.Call ::
      && e == RateLimiter.Call(tenant, op, now, e.lru) && RateLimiter.LruChoice(c, s, e)
      && s' == RateLimiter.Next(c, s, e) && within == RateLimiter.Allows(c, s, e)
  }
}
