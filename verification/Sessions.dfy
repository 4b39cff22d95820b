/** The session middleware: who reaches a protected handler. */
module Sessions {
  import opened Common
  import Dpop
  import Revocations
  import Tokens

  // ------------------------------------------------------ the DPoP scheme

  /** White space as Unicode defines it. */
  predicate IsSpace(c: char)
  {
    var u := c as int;
    || 0x09 <= u <= 0x0D || u == 0x20 || u == 0x85 || u == 0xA0 || u == 0x1680
    || 0x2000 <= u <= 0x200A || u == 0x2028 || u == 0x2029 || u == 0x202F || u == 0x205F || u == 0x3000
  }

  predicate Blank(s: string)
  {
    forall i | 0 <= i < |s| :: IsSpace(s[i])
  }

  function TrimLeft(s: string): string
  {
    if s != "" && IsSpace(s[0]) then TrimLeft(s[1..]) else s
  }

  function TrimRight(s: string): string
  {
    if s != "" && IsSpace(s[|s| - 1]) then TrimRight(s[..|s| - 1]) else s
  }

  lemma {:induction false} TrimLeftIs(s: string) returns (lead: string)
    ensures s == lead + TrimLeft(s) && Blank(lead)
    ensures TrimLeft(s) != "" ==> !IsSpace(TrimLeft(s)[0])
  {
    hide IsSpace;
    if s != "" && IsSpace(s[0]) {
      var rest := TrimLeftIs(s[1..]);
      lead := [s[0]] + rest;
      assert s == [s[0]] + s[1..];
    } else {
      lead := "";
    }
  }

  lemma {:induction false} TrimRightIs(s: string) returns (trail: string)
    ensures s == TrimRight(s) + trail && Blank(trail)
    ensures TrimRight(s) != "" ==> !IsSpace(TrimRight(s)[|TrimRight(s)| - 1])
  {
    hide IsSpace;
    if s != "" && IsSpace(s[|s| - 1]) {
      var rest := TrimRightIs(s[..|s| - 1]);
      trail := rest + [s[|s| - 1]];
      assert s == s[..|s| - 1] + [s[|s| - 1]];
    } else {
      trail := "";
    }
  }

  function DpopToken(header: string): Option<string>
  {
    if |header| <= 5 || !Dpop.EqualFold(header[..5], "dpop ") then None
    else
      var token := TrimRight(TrimLeft(header[5..]));
      if token == "" then None else Some(token)
  }

  /** What a header says when it carries a token: the scheme, and between white space
      the token, which neither starts nor ends with any. */
  ghost predicate Carries(header: string, lead: string, token: string, trail: string)
  {
    && |header| > 5 && Dpop.EqualFold(header[..5], "dpop ")
    && header[5..] == lead + token + trail && Blank(lead) && Blank(trail)
    && token != "" && !IsSpace(token[0]) && !IsSpace(token[|token| - 1])
  }

  lemma TokenStandsAlone(s: string, lead: string, token: string, trail: string, lead': string, token': string, trail': string)
    requires s == lead + token + trail == lead' + token' + trail' && Blank(lead) && Blank(trail) && Blank(lead') && Blank(trail')
    requires token != "" && !IsSpace(token[0]) && !IsSpace(token[|token| - 1])
    requires token' != "" && !IsSpace(token'[0]) && !IsSpace(token'[|token'| - 1])
    ensures token == token'
  {
    StartsAt(s, lead, token, trail);
    StartsAt(s, lead', token', trail');
    assert |lead| == |lead'| && |lead| + |token| == |lead'| + |token'|;
    assert token == s[|lead|..|lead| + |token|] && token' == s[|lead'|..|lead'| + |token'|];
  }

  lemma StartsAt(s: string, lead: string, token: string, trail: string)
    requires s == lead + token + trail && Blank(lead) && Blank(trail)
    requires token != "" && !IsSpace(token[0]) && !IsSpace(token[|token| - 1])
    ensures !IsSpace(s[|lead|]) && !IsSpace(s[|lead| + |token| - 1])
    ensures forall i | 0 <= i < |lead| :: IsSpace(s[i])
    ensures forall i | |lead| + |token| <= i < |s| :: IsSpace(s[i])
  {
    forall i | |lead| + |token| <= i < |s| ensures IsSpace(s[i]) {
      assert s[i] == trail[i - |lead| - |token|];
    }
  }

  lemma TrimmedIs(s: string) returns (lead: string, trail: string)
    ensures s == lead + TrimRight(TrimLeft(s)) + trail && Blank(lead) && Blank(trail)
    ensures var t := TrimRight(TrimLeft(s)); t != "" ==> !IsSpace(t[0]) && !IsSpace(t[|t| - 1])
    ensures TrimRight(TrimLeft(s)) == "" ==> Blank(s)
  {
    hide IsSpace;
    hide TrimLeft;
    hide TrimRight;
    lead := TrimLeftIs(s);
    trail := TrimRightIs(TrimLeft(s));
    var t := TrimRight(TrimLeft(s));
    assert TrimLeft(s) == t + trail;
    if t == "" {
      assert s == lead + trail;
    } else {
      assert t[0] == TrimLeft(s)[0];
    }
  }

  /** The middleware finds a token exactly when the header carries one, and that one. */
  lemma DpopTokenIsCarried(header: string, token: string)
    ensures DpopToken(header) == Some(token) <==> exists lead, trail :: Carries(header, lead, token, trail)
  {
    hide IsSpace;
    hide TrimLeft;
    hide TrimRight;
    if |header| > 5 {
      var s := header[5..];
      var lead, trail := TrimmedIs(s);
      if DpopToken(header) == Some(token) {
        assert Carries(header, lead, token, trail);
      }
      forall lead', trail' | Carries(header, lead', token, trail') ensures DpopToken(header) == Some(token) {
        StartsAt(s, lead', token, trail');
        assert TrimRight(TrimLeft(s)) != "" by {
          assert !IsSpace(s[|lead'|]);
        }
        TokenStandsAlone(s, lead', token, trail', lead, TrimRight(TrimLeft(s)), trail);
      }
    }
  }

  // ------------------------------------------------------------- Require

  datatype Config = Config(issuer: string, audience: string)

  /** A request to a protected route. `decoded` is what its raw token decodes to,
      `uri` the server's own address with the request's path. */
  datatype Request = Request(
    method_: string,
    uri: Option<Dpop.Uri>,
    authorization: string,
    decoded: Tokens.AccessToken,
    proof: Option<Dpop.Proof>)

  datatype Refusal = NoToken | BadToken(why: Tokens.Error) | Unbound | NoProof | BadProof(reason: Dpop.Error) | Revoked

  datatype Answer = Served(claims: Tokens.Claims) | Challenged(refusal: Refusal)

  /** The checks before the proof. */
  function Presented(issued: set<Tokens.Claims>, cfg: Config, r: Request, now: Time): Answer
  {
    if DpopToken(r.authorization).None? then Challenged(NoToken)
    else
      match Tokens.Verify(issued, cfg.issuer, r.decoded, cfg.audience, now)
      case Invalid(why) => Challenged(BadToken(why))
      case Valid(c) =>
        if c.confirm.None? || c.confirm.value == Tokens.NO_THUMBPRINT then Challenged(Unbound)
        else if r.proof.None? then Challenged(NoProof)
        else Served(c)
  }

  /** A presented token verified, names a key, and comes with a proof. */
  lemma PresentedMeans(issued: set<Tokens.Claims>, cfg: Config, r: Request, now: Time)
    requires Presented(issued, cfg, r, now).Served?
    ensures var c := Presented(issued, cfg, r, now).claims;
      && Tokens.Verify(issued, cfg.issuer, r.decoded, cfg.audience, now).Valid?
      && c in issued && r.decoded.claims == Some(c) && c.issuer == cfg.issuer && (cfg.audience == "" || c.audience == cfg.audience)
      && c.notBefore * SECOND - 30 * SECOND <= now <= c.expiresAt * SECOND + 30 * SECOND
      && DpopToken(r.authorization).Some? && r.proof.Some? && c.confirm.Some?
  {
    hide DpopToken;
    Tokens.AcceptedExactly(issued, cfg.issuer, r.decoded, cfg.audience, now);
    hide Tokens.Verify;
  }

  /** What the proof of a presented token has to be bound to. */
  function TargetOf(r: Request, c: Tokens.Claims): Dpop.Target
    requires DpopToken(r.authorization).Some? && c.confirm.Some?
  {
    Dpop.Target(r.method_, r.uri, DpopToken(r.authorization).value, c.confirm.value)
  }

  /** The attempt on the proof verifier a request amounts to; None if it gets none. */
  function AttemptOf(issued: set<Tokens.Claims>, proofs: set<Dpop.Signed>, cfg: Config, r: Request, now: Time, sweepAt: Time): (a: Option<Dpop.Attempt>)
    ensures a.Some? <==> Presented(issued, cfg, r, now).Served?
  {
    var presented := Presented(issued, cfg, r, now);
    if presented.Served? then Some(Dpop.Attempt(proofs, r.proof.value, TargetOf(r, presented.claims), now, sweepAt)) else None
  }

  /** Either revocation store. */
  datatype Checker = InMemory(memory: Revocations.MemoryStore) | InTables(tables: Revocations.SqlStore)

  class Authenticator {
    const cfg: Config
    const dpop: Dpop.Verifier
    const revocations: Checker

    constructor (cfg: Config, dpop: Dpop.Verifier, revocations: Checker)
      ensures this.cfg == cfg && this.dpop == dpop && this.revocations == revocations
    {
      this.cfg, this.dpop, this.revocations := cfg, dpop, revocations;
    }

    /** `issued` and `proofs` are what the signing key and the clients' keys ever signed;
        `dbFailed` says that the database, if it holds the revocations, cannot answer. */
    method Require(issued: set<Tokens.Claims>, proofs: set<Dpop.Signed>, r: Request, now: Time, sweepAt: Time, dbFailed: bool)
      returns (answer: Answer)
      modifies dpop.seen`items
      ensures var a, items, max := AttemptOf(issued, proofs, cfg, r, now, sweepAt), old(dpop.seen.items), dpop.seen.max;
        && dpop.seen.items == AfterAttempt(a, items, max)
        && answer == Answered(Presented(issued, cfg, r, now), Outcome(a, items, max), RefusedIn(revocations, dbFailed, Presented(issued, cfg, r, now)))
      ensures answer.Served? ==>
        var c := answer.claims;
        && (revocations.InTables? ==>
              !dbFailed && !Revocations.TablesRefuse(revocations.tables.Contents(), c.jti, c.tenantId, c.subject, c.issuedAt * SECOND))
        && (revocations.InMemory? ==> !Revocations.MemoryRefuses(revocations.memory.Contents(), c.jti, c.tenantId, c.subject, c.issuedAt * SECOND))
    {
      var raw := DpopToken(r.authorization);
      if raw.None? {
        return Challenged(NoToken);
      }
      var verdict := Tokens.Verify(issued, cfg.issuer, r.decoded, cfg.audience, now);
      if verdict.Invalid? {
        return Challenged(BadToken(verdict.error));
      }
      var c := verdict.claims;
      if c.confirm.None? || c.confirm.value == Tokens.NO_THUMBPRINT {
        return Challenged(Unbound);
      }
      if r.proof.None? {
        return Challenged(NoProof);
      }
      var p := r.proof.value;
      var signatureOk := p.header.Some? && p.header.value.key.Some? && p.payload.Some?
        && Dpop.Signed(p.header.value.key.value, p.header.value, p.payload.value) in proofs;
      var outcome := dpop.Verify(proofs, signatureOk, p, Dpop.Target(r.method_, r.uri, raw.value, c.confirm.value), now, sweepAt);
      if outcome.Refused? {
        return Challenged(BadProof(outcome.error));
      }
      var revoked;
      match revocations {
        case InMemory(memory) => revoked := memory.IsRevoked(c.jti, c.tenantId, c.subject, c.issuedAt * SECOND);
        case InTables(tables) => revoked := tables.IsRevoked(c.jti, c.tenantId, c.subject, c.issuedAt * SECOND, dbFailed);
      }
      if revoked {
        return Challenged(Revoked);
      }
      answer := Served(c);
    }
  }

  function Outcome(a: Option<Dpop.Attempt>, items: map<string, Time>, max: nat): Option<Dpop.Outcome>
  {
    if a.None? then None else Some(Dpop.Judge(a.value.signed, items, max, a.value.proof, a.value.target, a.value.now, a.value.sweepAt))
  }

  function AfterAttempt(a: Option<Dpop.Attempt>, items: map<string, Time>, max: nat): map<string, Time>
  {
    if a.None? then items
    else Dpop.AfterJudge(a.value.signed, items, max, a.value.proof, a.value.target, a.value.now, a.value.sweepAt)
  }

  ghost predicate RefusedIn(revocations: Checker, dbFailed: bool, presented: Answer)
    reads if revocations.InMemory? then {revocations.memory as object} else {revocations.tables}
  {
    presented.Served? &&
    var c := presented.claims;
    match revocations
    case InMemory(memory) => Revocations.MemoryRefuses(memory.Contents(), c.jti, c.tenantId, c.subject, c.issuedAt * SECOND)
    case InTables(tables) => dbFailed || Revocations.TablesRefuse(tables.Contents(), c.jti, c.tenantId, c.subject, c.issuedAt * SECOND)
  }

  /** Revocation is asked about last, once the proof is spent. */
  function Answered(presented: Answer, outcome: Option<Dpop.Outcome>, revoked: bool): Answer
  {
    if outcome.None? then presented
    else if outcome.value.Refused? then Challenged(BadProof(outcome.value.error))
    else if revoked then Challenged(Revoked)
    else presented
  }

  /** A request is served exactly when its header carries a token that is signed, in its
      window and meant for this server, its proof fits the request and the token, was
      signed by the key the token names and is new, and the token is not revoked. */
  lemma ServedExactly(issued: set<Tokens.Claims>, proofs: set<Dpop.Signed>, cfg: Config, r: Request, items: map<string, Time>, max: nat,
                      revoked: bool, now: Time, sweepAt: Time)
    ensures var answer := Answered(Presented(issued, cfg, r, now), Outcome(AttemptOf(issued, proofs, cfg, r, now, sweepAt), items, max), revoked);
      answer.Served? <==>
        && DpopToken(r.authorization).Some? && r.proof.Some?
        && r.decoded.threeParts && r.decoded.alg == Some("ES256") && r.decoded.claims.Some? && r.decoded.signature.Some?
        && var c, proof := r.decoded.claims.value, r.proof.value;
           && c in issued && c.issuer == cfg.issuer && (cfg.audience == "" || c.audience == cfg.audience)
           && c.notBefore * SECOND - 30 * SECOND <= now <= c.expiresAt * SECOND + 30 * SECOND
           && Dpop.Fits(proofs, proof, r.method_, r.uri, now)
           && proof.payload.value.ath == Tokens.Sha256(DpopToken(r.authorization).value)
           && c.confirm == Some(Tokens.Sha256(proof.header.value.key.value))
           && Dpop.IsNew(items, max, proof.payload.value.jti, sweepAt)
           && !revoked
    ensures var answer := Answered(Presented(issued, cfg, r, now), Outcome(AttemptOf(issued, proofs, cfg, r, now, sweepAt), items, max), revoked);
      answer.Served? ==> r.decoded.claims == Some(answer.claims)
  {
    Tokens.AcceptedExactly(issued, cfg.issuer, r.decoded, cfg.audience, now);
    var presented := Presented(issued, cfg, r, now);
    if presented.Served? {
      Dpop.PassesExactly(proofs, r.proof.value, TargetOf(r, presented.claims), now);
      assert DpopToken(r.authorization).value != "";
    }
    if r.proof.Some? && r.proof.value.payload.Some? {
      Dpop.AdmitsTheNew(items, max, r.proof.value.payload.value.jti, sweepAt);
    }
    hide Dpop.IsNew;
    hide Tokens.Verify;
    hide DpopToken;
    hide Dpop.Check;
    hide Dpop.Fits;
    hide Dpop.Admits;
  }

  /** A challenge names a check that fails. */
  lemma ChallengedMeans(issued: set<Tokens.Claims>, proofs: set<Dpop.Signed>, cfg: Config, r: Request, items: map<string, Time>, max: nat,
                        revoked: bool, now: Time, sweepAt: Time)
    ensures var answer := Answered(Presented(issued, cfg, r, now), Outcome(AttemptOf(issued, proofs, cfg, r, now, sweepAt), items, max), revoked);
      answer.Challenged? ==>
        && (answer.refusal == NoToken ==> DpopToken(r.authorization).None?)
        && (answer.refusal.BadToken? ==> Tokens.Verify(issued, cfg.issuer, r.decoded, cfg.audience, now) == Tokens.Invalid(answer.refusal.why))
        && (answer.refusal == Unbound ==> r.decoded.claims.Some? && (r.decoded.claims.value.confirm.None? || r.decoded.claims.value.confirm == Some(Tokens.Other(""))))
        && (answer.refusal == NoProof ==> r.proof.None?)
        && (answer.refusal == BadProof(Dpop.Replay) ==>
              && r.proof.Some? && r.proof.value.payload.Some? && Dpop.Fits(proofs, r.proof.value, r.method_, r.uri, now)
              && !Dpop.IsNew(items, max, r.proof.value.payload.value.jti, sweepAt))
        && (answer.refusal == Revoked ==> revoked)
  {
    Tokens.AcceptedExactly(issued, cfg.issuer, r.decoded, cfg.audience, now);
    var presented := Presented(issued, cfg, r, now);
    if presented.Served? {
      var t := TargetOf(r, presented.claims);
      Dpop.PassesExactly(proofs, r.proof.value, t, now);
      ReplayComesLast(proofs, r.proof.value, t, now);
    }
    if r.proof.Some? && r.proof.value.payload.Some? {
      Dpop.AdmitsTheNew(items, max, r.proof.value.payload.value.jti, sweepAt);
    }
    hide Dpop.IsNew;
    hide Tokens.Verify;
    hide DpopToken;
    hide Dpop.Check;
    hide Dpop.Fits;
    hide Dpop.Admits;
  }

  lemma ReplayComesLast(proofs: set<Dpop.Signed>, p: Dpop.Proof, t: Dpop.Target, now: Time)
    ensures Dpop.Check(proofs, p, t, now) != Some(Dpop.Replay)
  {
  }
}
