/** Access tokens: what the signer puts in them and what the verifier accepts. */
module Tokens {
  import opened Common

  /** A public key of a client, a point of the curve. */
  datatype Key = Key(x: nat, y: nat)

  /** A string that may be the encoded SHA-256 hash of something. The hash is
      ideal: an encoding comes from one preimage only. */
  datatype HashText<T> = Sha256(of: T) | Other(text: string)

  const NO_THUMBPRINT: HashText<Key> := Other("")

  datatype Claims = Claims(
    issuer: string,
    subject: string,
    audience: string,
    tenantId: string,
    scope: string,
    issuedAt: int,
    notBefore: int,
    expiresAt: int,
    jti: string,
    confirm: Option<HashText<Key>>)

  /** A presented token after decoding; a part that does not decode is None. */
  datatype AccessToken = AccessToken(threeParts: bool, alg: Option<string>, claims: Option<Claims>, signature: Option<string>)

  datatype Error = Malformed | Algorithm | Signature | Expired | NotYet | Issuer | Audience

  datatype Verdict = Valid(claims: Claims) | Invalid(error: Error)

  const LEEWAY: Time := 30 * SECOND
  const ACCESS_TOKEN_TTL: Time := 10 * MINUTE

  /** The claims of a fresh token; `jti` is used only when c carries none. */
  function Stamped(iss: string, c: Claims, ttl: Time, now: Time, jti: string): Claims
  {
    c.(issuer := iss, issuedAt := Unix(now), notBefore := Unix(now), expiresAt := Unix(now + ttl),
       jti := if c.jti == "" then jti else c.jti)
  }

  /** The claims of the access token the token endpoint asks for. */
  function AccessClaims(iss: string, audience: string, subject: string, tenant: string, scope: string,
                        confirm: Option<HashText<Key>>, now: Time, jti: string): Claims
  {
    Stamped(iss, Claims("", subject, audience, tenant, scope, 0, 0, 0, "", confirm), ACCESS_TOKEN_TTL, now, jti)
  }

  /** Mints a token. None when the lifetime is not positive, or randomness, encoding or
      signing failed; `signs` says whether the last two work. */
  method Issue(iss: string, c: Claims, ttl: Time, now: Time, random: Option<string>, signs: bool) returns (signed: Option<Claims>)
    ensures signed.Some? <==> 0 < ttl && (c.jti == "" ==> random.Some?) && signs
    ensures signed.Some? ==> signed.value == Stamped(iss, c, ttl, now, if random.Some? then random.value else "")
    ensures signed.Some? ==>
      signed.value == c.(issuer := iss, issuedAt := Unix(now), notBefore := Unix(now), expiresAt := Unix(now + ttl),
                         jti := if c.jti != "" then c.jti else random.value)
  {
    if ttl <= 0 {
      return None;
    }
    var out := c.(issuer := iss);
    out := out.(issuedAt := Unix(now));
    out := out.(notBefore := Unix(now));
    out := out.(expiresAt := Unix(now + ttl));
    if out.jti == "" {
      if random.None? {
        return None;
      }
      out := out.(jti := random.value);
    }
    if !signs {
      return None;
    }
    signed := Some(out);
  }

  /** `signed` holds the claims the signing key ever signed. */
  function Verify(signed: set<Claims>, iss: string, token: AccessToken, audience: string, now: Time): Verdict
  {
    if !token.threeParts then Invalid(Malformed)
    else if token.alg.None? then Invalid(Malformed)
    else if token.alg.value != "ES256" then Invalid(Algorithm)
    else if token.claims.None? then Invalid(Malformed)
    else if token.signature.None? then Invalid(Malformed)
    else
      var c := token.claims.value;
      if c !in signed then Invalid(Signature)
      else if now > c.expiresAt * SECOND + LEEWAY then Invalid(Expired)
      else if now < c.notBefore * SECOND - LEEWAY then Invalid(NotYet)
      else if c.issuer != iss then Invalid(Issuer)
      else if audience != "" && c.audience != audience then Invalid(Audience)
      else Valid(c)
  }

  /** Start of the window in which a token issued at t verifies. */
  function WindowStart(t: Time): Time { Unix(t) * SECOND - 30 * SECOND }

  function WindowEnd(t: Time, ttl: Time): Time { Unix(t + ttl) * SECOND + 30 * SECOND }

  /** A well-formed token signed at t for this audience is accepted at exactly
      the readings between the floored issue time less the leeway and the floored
      expiry plus it; that is never more than two leeways beyond its lifetime,
      and never less than its lifetime and two leeways less one second. */
  lemma LifetimeIsExact(signed: set<Claims>, iss: string, c: Claims, ttl: Time, t: Time, jti: string, sig: string, audience: string, now: Time)
    requires 0 < ttl && Stamped(iss, c, ttl, t, jti) in signed && (audience == "" || c.audience == audience)
    ensures var token := AccessToken(true, Some("ES256"), Some(Stamped(iss, c, ttl, t, jti)), Some(sig));
            Verify(signed, iss, token, audience, now).Valid? <==> WindowStart(t) <= now <= WindowEnd(t, ttl)
    ensures t - 31 * SECOND < WindowStart(t) <= t - 30 * SECOND
    ensures t + ttl + 29 * SECOND < WindowEnd(t, ttl) <= t + ttl + 30 * SECOND
    ensures WindowStart(t) <= t && t + ttl <= WindowEnd(t, ttl)
  {
    FloorsToSecond(t);
    FloorsToSecond(t + ttl);
  }

  lemma FloorsToSecond(t: Time)
    ensures t - SECOND < Unix(t) * SECOND <= t
  {
  }

  /** A token is accepted exactly when it is well formed, its claims were signed, and
      they are inside their window, for this issuer and audience. An error names a
      check that fails, and time, issuer or audience only of signed claims. */
  lemma AcceptedExactly(signed: set<Claims>, iss: string, token: AccessToken, audience: string, now: Time)
    ensures var v := Verify(signed, iss, token, audience, now);
      v.Valid? <==>
        && token.threeParts && token.alg == Some("ES256") && token.claims.Some? && token.signature.Some?
        && var c := token.claims.value;
           && c in signed && c.issuer == iss && (audience == "" || c.audience == audience)
           && c.notBefore * SECOND - 30 * SECOND <= now <= c.expiresAt * SECOND + 30 * SECOND
    ensures var v := Verify(signed, iss, token, audience, now);
      && (v.Valid? ==> token.claims == Some(v.claims))
      && (v == Invalid(Malformed) ==> !token.threeParts || token.alg.None? || token.claims.None? || token.signature.None?)
      && (v == Invalid(Algorithm) ==> token.alg != Some("ES256"))
      && (v.Invalid? && v.error in {Signature, Expired, NotYet, Issuer, Audience} ==>
            && token.claims.Some?
            && var c := token.claims.value;
               && (v.error == Signature <==> c !in signed)
               && (v.error == Expired ==> now > c.expiresAt * SECOND + 30 * SECOND)
               && (v.error == NotYet ==> now < c.notBefore * SECOND - 30 * SECOND)
               && (v.error == Issuer ==> c.issuer != iss)
               && (v.error == Audience ==> audience != "" && c.audience != audience))
  {
  }

  // ------------------------------------------------------- three-part split

  predicate DotFree(s: string)
  {
    forall i | 0 <= i < |s| :: s[i] != '.'
  }

  /** s up to its first dot and what follows it. */
  ghost predicate CutAt(s: string, head: string, rest: string)
  {
    DotFree(head) && s == head + "." + rest
  }

  /** Three nonempty parts at the first two dots; the last part may hold more dots. */
  ghost predicate SplitsInto(s: string, parts: seq<string>)
  {
    && |parts| == 3
    && CutAt(s, parts[0], parts[1] + "." + parts[2])
    && CutAt(parts[1] + "." + parts[2], parts[1], parts[2])
    && parts[0] != "" && parts[1] != "" && parts[2] != ""
  }

  lemma CutIsUnique(s: string, a: string, b: string, a': string, b': string)
    requires CutAt(s, a, b) && CutAt(s, a', b')
    ensures a == a' && b == b'
  {
    assert s[|a|] == '.' && s[|a'|] == '.';
    assert forall i | 0 <= i < |a| :: s[i] == a[i];
    assert forall i | 0 <= i < |a'| :: s[i] == a'[i];
    assert a == s[..|a|] && b == s[|a| + 1..];
    assert a' == s[..|a'|] && b' == s[|a'| + 1..];
  }

  lemma SplitIsUnique(s: string, p: seq<string>, q: seq<string>)
    requires SplitsInto(s, p) && SplitsInto(s, q)
    ensures p == q
  {
    CutIsUnique(s, p[0], p[1] + "." + p[2], q[0], q[1] + "." + q[2]);
    CutIsUnique(p[1] + "." + p[2], p[1], p[2], q[1], q[2]);
  }

  lemma CutHere(s: string, start: nat, i: nat)
    requires start <= i < |s| && DotFree(s[start..i]) && s[i] == '.'
    ensures CutAt(s[start..], s[start..i], s[i + 1..])
  {
    assert s[start..] == s[start..i] + "." + s[i + 1..];
  }

  lemma NoCut(s: string, head: string, rest: string)
    requires DotFree(s)
    ensures !CutAt(s, head, rest)
  {
    assert (head + "." + rest)[|head|] == '.';
  }

  /** Why a string has no three parts: too few dots, or an empty part. */
  lemma CannotSplit(s: string, out: seq<string>, rest: string, p: seq<string>)
    requires |out| <= 2
    requires |out| == 0 ==> DotFree(s)
    requires |out| == 1 ==> CutAt(s, out[0], rest) && DotFree(rest)
    requires |out| == 2 ==> CutAt(s, out[0], out[1] + "." + rest) && CutAt(out[1] + "." + rest, out[1], rest)
    requires |out| == 2 ==> out[0] == "" || out[1] == "" || rest == ""
    ensures !SplitsInto(s, p)
  {
    if SplitsInto(s, p) {
      if |out| == 0 {
        NoCut(s, p[0], p[1] + "." + p[2]);
      } else if |out| == 1 {
        CutIsUnique(s, p[0], p[1] + "." + p[2], out[0], rest);
        NoCut(rest, p[1], p[2]);
      } else {
        CutIsUnique(s, p[0], p[1] + "." + p[2], out[0], out[1] + "." + rest);
        CutIsUnique(p[1] + "." + p[2], p[1], p[2], out[1], rest);
      }
    }
  }

  /** Splits at the first two dots in one pass; None unless three nonempty parts come out. */
  method SplitThree(s: string) returns (parts: Option<seq<string>>)
    ensures parts.Some? ==> SplitsInto(s, parts.value)
    ensures parts.None? ==> forall p :: !SplitsInto(s, p)
  {
    var out: seq<string> := [];
    var start, i := 0, 0;
    while i < |s| && |out| < 2
      invariant 0 <= start <= i <= |s| && |out| <= 2
      invariant |out| < 2 ==> DotFree(s[start..i])
      invariant |out| == 0 ==> start == 0
      invariant |out| == 1 ==> CutAt(s, out[0], s[start..])
      invariant |out| == 2 ==> CutAt(s, out[0], out[1] + "." + s[start..]) && CutAt(out[1] + "." + s[start..], out[1], s[start..])
    {
      if s[i] == '.' {
        CutHere(s, start, i);
        assert s[0..] == s;
        out := out + [s[start..i]];
        start := i + 1;
        assert s[start..i + 1] == "";
      } else {
        assert s[start..i + 1] == s[start..i] + [s[i]];
      }
      i := i + 1;
    }
    assert i == |s| ==> s[start..i] == s[start..];
    if |out| != 2 || out[0] == "" || out[1] == "" || s[start..] == "" {
      assert s[0..] == s;
      forall p ensures !SplitsInto(s, p) {
        CannotSplit(s, out, s[start..], p);
      }
      return None;
    }
    parts := Some(out + [s[start..]]);
  }
}
