/** DPoP proofs (RFC 9449): the checks on one proof and the cache of used ones. */
module Dpop {
  import opened Common
  import Tokens

  const MAX_AGE: Time := 60 * SECOND

  /** The header of a proof; `jwk` is absent, or present and usable or not. */
  datatype Header = Header(typ: string, alg: string, jwkPresent: bool, key: Option<Tokens.Key>)

  /** A request address; queries and fragments never take part in comparisons. */
  datatype Uri = Uri(scheme: string, host: string, path: string)

  datatype Payload = Payload(jti: string, htm: string, htu: Option<Uri>, iat: int, ath: Tokens.HashText<string>)

  /** A presented proof after decoding; a part that does not decode is None. */
  datatype Proof = Proof(threeParts: bool, header: Option<Header>, payload: Option<Payload>, signatureDecodes: bool)

  /** What a holder of `key` put its signature under. */
  datatype Signed = Signed(key: Tokens.Key, header: Header, payload: Payload)

  /** The request a proof has to be bound to. `token` is the raw access token, empty at
      the token endpoint. */
  datatype Target = Target(htm: string, uri: Option<Uri>, token: string, jkt: Tokens.HashText<Tokens.Key>)

  datatype Error =
    | Malformed | Type | Algorithm | KeyMissing | KeyInvalid | Signature
    | Method | BadUri | Stale | TokenHash | TokenBinding | Replay

  /** Case folding of the ASCII letters, and of the two other characters that fold to one. */
  function Lower(c: char): char
  {
    if 'A' <= c <= 'Z' then c - 'A' + 'a'
    else if c == '\U{017F}' then 's'
    else if c == '\U{212A}' then 'k'
    else c
  }

  predicate EqualFold(a: string, b: string)
  {
    |a| == |b| && forall i | 0 <= i < |a| :: Lower(a[i]) == Lower(b[i])
  }

  predicate SameUri(htu: Option<Uri>, actual: Option<Uri>)
  {
    && htu.Some? && actual.Some?
    && EqualFold(htu.value.scheme, actual.value.scheme)
    && EqualFold(htu.value.host, actual.value.host)
    && htu.value.path == actual.value.path
  }

  function Thumbprint(k: Tokens.Key): Tokens.HashText<Tokens.Key>
  {
    Tokens.Sha256(k)
  }

  /** Every check that comes before the replay cache, in order; None when all pass. */
  function Check(signed: set<Signed>, p: Proof, t: Target, now: Time): Option<Error>
  {
    if !p.threeParts then Some(Malformed)
    else if p.header.None? then Some(Malformed)
    else if p.header.value.typ != "dpop+jwt" then Some(Type)
    else if p.header.value.alg != "ES256" then Some(Algorithm)
    else if !p.header.value.jwkPresent then Some(KeyMissing)
    else if p.header.value.key.None? then Some(KeyInvalid)
    else if p.payload.None? then Some(Malformed)
    else if !p.signatureDecodes then Some(Malformed)
    else
      var key, claim := p.header.value.key.value, p.payload.value;
      if Signed(key, p.header.value, claim) !in signed then Some(Signature)
      else if !EqualFold(claim.htm, t.htm) then Some(Method)
      else if !SameUri(claim.htu, t.uri) then Some(BadUri)
      else if now - claim.iat * SECOND > MAX_AGE || now - claim.iat * SECOND < -MAX_AGE then Some(Stale)
      else if t.token != "" && claim.ath != Tokens.Sha256(t.token) then Some(TokenHash)
      else if t.token != "" && Thumbprint(key) != t.jkt then Some(TokenBinding)
      else if claim.jti == "" then Some(Malformed)
      else None
  }

  /** Equal letters, upper or lower case of one ASCII letter, or both of a kind that
      Unicode folds to the letter k or s (the Kelvin sign, the long s). */
  ghost predicate SameLetter(c: char, d: char)
  {
    || c == d
    || ('A' <= c <= 'Z' && d as int == c as int + 32)
    || ('A' <= d <= 'Z' && c as int == d as int + 32)
    || (c in {'K', 'k', '\U{212A}'} && d in {'K', 'k', '\U{212A}'})
    || (c in {'S', 's', '\U{017F}'} && d in {'S', 's', '\U{017F}'})
  }

  ghost predicate UpToCase(a: string, b: string)
  {
    |a| == |b| && forall i | 0 <= i < |a| :: SameLetter(a[i], b[i])
  }

  /** The comparison is exact up to case, and among ASCII strings up to ASCII case. */
  lemma FoldsCase(a: string, b: string)
    ensures EqualFold(a, b) <==> UpToCase(a, b)
    ensures UpToCase(a, b) && (forall c | c in a + b :: c as int < 128) ==>
      forall i | 0 <= i < |a| :: a[i] == b[i] || (('A' <= a[i] <= 'Z' || 'A' <= b[i] <= 'Z') && a[i] as int - b[i] as int in {32, -32})
  {
    forall i | 0 <= i < |a| && i < |b| ensures Lower(a[i]) == Lower(b[i]) <==> SameLetter(a[i], b[i]) {
      FoldsLetter(a[i], b[i]);
    }
    hide Lower;
    forall i | 0 <= i < |a| ensures a[i] in a + b {
      assert (a + b)[i] == a[i];
    }
    forall i | 0 <= i < |b| ensures b[i] in a + b {
      assert (a + b)[|a| + i] == b[i];
    }
  }

  lemma FoldsLetter(c: char, d: char)
    ensures Lower(c) == Lower(d) <==> SameLetter(c, d)
  {
  }

  /** Scheme and host up to case, and the very same path. */
  ghost predicate SameAddress(a: Option<Uri>, b: Option<Uri>)
  {
    && a.Some? && b.Some?
    && UpToCase(a.value.scheme, b.value.scheme) && UpToCase(a.value.host, b.value.host)
    && a.value.path == b.value.path
  }

  /** A well-formed proof, signed by the key it names, for this method and address,
      dated within a minute of `now`. */
  ghost predicate Fits(signed: set<Signed>, p: Proof, htm: string, uri: Option<Uri>, now: Time)
  {
    && p.threeParts && p.header.Some? && p.payload.Some? && p.signatureDecodes
    && p.header.value.typ == "dpop+jwt" && p.header.value.alg == "ES256" && p.header.value.jwkPresent && p.header.value.key.Some?
    && var key, claim := p.header.value.key.value, p.payload.value;
       && Signed(key, p.header.value, claim) in signed
       && UpToCase(claim.htm, htm)
       && SameAddress(claim.htu, uri)
       && -60 * SECOND <= now - claim.iat * SECOND <= 60 * SECOND
       && claim.jti != ""
  }

  /** The proof hashes this token, and the token is bound to the proof's key. */
  ghost predicate BoundTo(p: Proof, token: string, jkt: Tokens.HashText<Tokens.Key>)
    requires p.header.Some? && p.header.value.key.Some? && p.payload.Some?
  {
    p.payload.value.ath == Tokens.Sha256(token) && jkt == Tokens.Sha256(p.header.value.key.value)
  }

  /** A proof passes exactly when it is well formed, signed by the key it names, bound
      to the request and the token, and fresh. */
  lemma PassesExactly(signed: set<Signed>, p: Proof, t: Target, now: Time)
    ensures Check(signed, p, t, now) == None <==>
      Fits(signed, p, t.htm, t.uri, now) && (t.token != "" ==> BoundTo(p, t.token, t.jkt))
  {
    if p.payload.Some? {
      var claim := p.payload.value;
      FoldsCase(claim.htm, t.htm);
      SameUriIsSameAddress(claim.htu, t.uri);
      hide EqualFold;
      hide UpToCase;
      hide SameUri;
      hide SameAddress;
    }
  }

  lemma SameUriIsSameAddress(htu: Option<Uri>, actual: Option<Uri>)
    ensures SameUri(htu, actual) <==> SameAddress(htu, actual)
  {
    if htu.Some? && actual.Some? {
      FoldsCase(htu.value.scheme, actual.value.scheme);
      FoldsCase(htu.value.host, actual.value.host);
    }
    hide EqualFold;
    hide UpToCase;
  }

  /** An error names a check that fails, of a proof whose signature holds where the
      check is about what was signed. */
  lemma ErrorMeans(signed: set<Signed>, p: Proof, t: Target, now: Time)
    requires Check(signed, p, t, now).Some? && p.header.Some? && p.payload.Some?
    ensures var h, claim, error := p.header.value, p.payload.value, Check(signed, p, t, now).value;
      && (error == Malformed ==> !p.threeParts || !p.signatureDecodes || claim.jti == "")
      && (error == Type ==> h.typ != "dpop+jwt")
      && (error == Algorithm ==> h.alg != "ES256")
      && (error == KeyMissing ==> !h.jwkPresent)
      && (error == KeyInvalid ==> h.key.None?)
      && (error == Signature ==> h.key.Some? && Signed(h.key.value, h, claim) !in signed)
      && (error in {Method, BadUri, Stale, TokenHash, TokenBinding} ==> h.key.Some? && Signed(h.key.value, h, claim) in signed)
      && (error == Method ==> !UpToCase(claim.htm, t.htm))
      && (error == BadUri ==> !SameAddress(claim.htu, t.uri))
      && (error == Stale ==> now - claim.iat * SECOND > 60 * SECOND || now - claim.iat * SECOND < -60 * SECOND)
      && (error == TokenHash ==> t.token != "" && claim.ath != Tokens.Sha256(t.token))
      && (error == TokenBinding ==> t.token != "" && h.key.Some? && t.jkt != Tokens.Sha256(h.key.value))
      && error != Replay
  {
    FoldsCase(p.payload.value.htm, t.htm);
    SameUriIsSameAddress(p.payload.value.htu, t.uri);
    hide EqualFold;
    hide UpToCase;
    hide SameUri;
    hide SameAddress;
  }

  // ---------------------------------------------------------- replay cache

  function Live(items: map<string, Time>, now: Time): map<string, Time>
  {
    map jti | jti in items && now <= items[jti] :: items[jti]
  }

  predicate Admits(items: map<string, Time>, max: nat, jti: string, now: Time)
  {
    jti !in items && (|items| < max || |Live(items, now)| < max)
  }

  function AfterAdmit(items: map<string, Time>, max: nat, jti: string, until: Time, now: Time): map<string, Time>
  {
    if jti in items then items
    else if |items| < max then items[jti := until]
    else if |Live(items, now)| < max then Live(items, now)[jti := until]
    else Live(items, now)
  }

  /** The identifier is not remembered, and there is room for it once the expired go. */
  ghost predicate IsNew(items: map<string, Time>, max: nat, jti: string, at: Time)
  {
    jti !in items && (|items| < max || |set k | k in items && at <= items[k]| < max)
  }

  lemma AdmitsTheNew(items: map<string, Time>, max: nat, jti: string, at: Time)
    ensures Admits(items, max, jti, at) <==> IsNew(items, max, jti, at)
  {
    assert Live(items, at).Keys == set k | k in items && at <= items[k];
    assert |Live(items, at)| == |Live(items, at).Keys|;
  }

  class ReplayCache {
    var items: map<string, Time>
    var max: nat

    constructor ()
      ensures items == map[] && max == 100_000
    {
      items, max := map[], 100_000;
    }

    /** Remembers the identifier until the given time. False when it is remembered
        already, or when expired entries alone make no room for it. */
    method Admit(jti: string, until: Time, now: Time) returns (ok: bool)
      modifies this`items
      ensures ok == Admits(old(items), max, jti, now)
      ensures items == AfterAdmit(old(items), max, jti, until, now)
      ensures |old(items)| <= max ==> |items| <= max
    {
      if jti in items {
        return false;
      }
      if |items| >= max {
        DeleteExpired(now);
        if |items| >= max {
          return false;
        }
      }
      UpdateSize(items, jti, until);
      items := items[jti := until];
      ok := true;
    }

    method DeleteExpired(now: Time)
      modifies this`items
      ensures items == Live(old(items), now)
      ensures |items| <= |old(items)|
    {
      var todo := items.Keys;
      while todo != {}
        invariant todo <= items.Keys <= old(items).Keys
        invariant forall k | k in items :: items[k] == old(items)[k]
        invariant forall k | k in old(items) && k !in todo :: k in items <==> now <= old(items)[k]
      {
        var k :| k in todo;
        todo := todo - {k};
        if now > items[k] {
          items := items - {k};
        }
      }
      SubsetSize(items.Keys, old(items).Keys);
    }
  }

  datatype Outcome = Accepted(thumbprint: Tokens.HashText<Tokens.Key>, jti: string) | Refused(error: Error)

  /** The verdict on a proof, given the cache. `sweepAt` is the cache's own clock reading. */
  function Judge(signed: set<Signed>, items: map<string, Time>, max: nat, p: Proof, t: Target, now: Time, sweepAt: Time): Outcome
  {
    var failed := Check(signed, p, t, now);
    if failed.Some? then Refused(failed.value)
    else if !Admits(items, max, p.payload.value.jti, sweepAt) then Refused(Replay)
    else Accepted(Thumbprint(p.header.value.key.value), p.payload.value.jti)
  }

  /** The cache afterwards: a proof that fails an earlier check leaves no trace. */
  function AfterJudge(signed: set<Signed>, items: map<string, Time>, max: nat, p: Proof, t: Target, now: Time, sweepAt: Time): map<string, Time>
  {
    if Check(signed, p, t, now).Some? then items
    else AfterAdmit(items, max, p.payload.value.jti, now + 2 * MAX_AGE, sweepAt)
  }

  /** What the token endpoint binds a proof to; there is no token yet. */
  function AtTokenEndpoint(uri: Option<Uri>): Target
  {
    Target("POST", uri, "", Tokens.NO_THUMBPRINT)
  }

  class Verifier {
    const seen: ReplayCache

    constructor ()
      ensures fresh(seen) && seen.items == map[] && seen.max == 100_000
    {
      seen := new ReplayCache();
    }

    /** `signed` is the ideal signature's record of what keys have signed. */
    method Verify(ghost signed: set<Signed>, signatureOk: bool, p: Proof, t: Target, now: Time, sweepAt: Time)
      returns (outcome: Outcome)
      requires signatureOk <==>
        && p.header.Some? && p.header.value.key.Some? && p.payload.Some?
        && Signed(p.header.value.key.value, p.header.value, p.payload.value) in signed
      modifies seen`items
      ensures outcome == Judge(signed, old(seen.items), seen.max, p, t, now, sweepAt)
      ensures seen.items == AfterJudge(signed, old(seen.items), seen.max, p, t, now, sweepAt)
      ensures outcome.Accepted? <==>
        && Fits(signed, p, t.htm, t.uri, now) && (t.token != "" ==> BoundTo(p, t.token, t.jkt))
        && IsNew(old(seen.items), seen.max, p.payload.value.jti, sweepAt)
      ensures outcome.Accepted? ==> outcome == Accepted(Tokens.Sha256(p.header.value.key.value), p.payload.value.jti)
    {
      PassesExactly(signed, p, t, now);
      hide Fits;
      hide BoundTo;
      if !p.threeParts || p.header.None? {
        return Refused(Malformed);
      }
      var h := p.header.value;
      if h.typ != "dpop+jwt" {
        return Refused(Type);
      }
      if h.alg != "ES256" {
        return Refused(Algorithm);
      }
      if !h.jwkPresent {
        return Refused(KeyMissing);
      }
      if h.key.None? {
        return Refused(KeyInvalid);
      }
      if p.payload.None? || !p.signatureDecodes {
        return Refused(Malformed);
      }
      var claim := p.payload.value;
      if !signatureOk {
        return Refused(Signature);
      }
      if !EqualFold(claim.htm, t.htm) {
        return Refused(Method);
      }
      if !SameUri(claim.htu, t.uri) {
        return Refused(BadUri);
      }
      var age := now - claim.iat * SECOND;
      if age > MAX_AGE || age < -MAX_AGE {
        return Refused(Stale);
      }
      var thumb := Thumbprint(h.key.value);
      if t.token != "" {
        if claim.ath != Tokens.Sha256(t.token) {
          return Refused(TokenHash);
        }
        if thumb != t.jkt {
          return Refused(TokenBinding);
        }
      }
      if claim.jti == "" {
        return Refused(Malformed);
      }
      AdmitsTheNew(seen.items, seen.max, claim.jti, sweepAt);
      hide IsNew;
      var isNew := seen.Admit(claim.jti, now + 2 * MAX_AGE, sweepAt);
      if !isNew {
        return Refused(Replay);
      }
      outcome := Accepted(thumb, claim.jti);
    }
  }

  // ------------------------------------------------------------ whole runs

  /** One call of Verify; `signed` is what keys had signed by then. */
  datatype Attempt = Attempt(signed: set<Signed>, proof: Proof, target: Target, now: Time, sweepAt: Time)

  ghost function ItemsAt(max: nat, run: seq<Attempt>, n: nat): map<string, Time>
    requires n <= |run|
  {
    if n == 0 then map[]
    else
      var a := run[n - 1];
      AfterJudge(a.signed, ItemsAt(max, run, n - 1), max, a.proof, a.target, a.now, a.sweepAt)
  }

  ghost function OutcomeOf(max: nat, run: seq<Attempt>, n: nat): Outcome
    requires n < |run|
  {
    var a := run[n];
    Judge(a.signed, ItemsAt(max, run, n), max, a.proof, a.target, a.now, a.sweepAt)
  }

  ghost predicate AcceptedAt(max: nat, run: seq<Attempt>, n: nat)
    requires n < |run|
  {
    OutcomeOf(max, run, n).Accepted?
  }

  ghost function JtiOf(run: seq<Attempt>, n: nat): string
    requires n < |run|
  {
    if run[n].proof.payload.Some? then run[n].proof.payload.value.jti else ""
  }

  /** Calls in the order in which they hold the cache's lock. The checks read the proof
      and the clock only, so a call may have read its clock long before, while others
      were at the cache. One clock serves all. */
  ghost predicate LockOrdered(run: seq<Attempt>)
  {
    && (forall i | 0 <= i < |run| :: run[i].now <= run[i].sweepAt)
    && forall i, j | 0 <= i <= j < |run| :: run[i].sweepAt <= run[j].sweepAt
  }

  /** No call reads its clock before an earlier one is done with the cache. */
  ghost predicate Apart(run: seq<Attempt>)
  {
    forall i, j | 0 <= i < j < |run| :: run[i].sweepAt <= run[j].now
  }

  /** The cache still holds the jti accepted by call i, or its time is over. */
  ghost predicate Remembered(max: nat, run: seq<Attempt>, i: nat, n: nat)
    requires i < n <= |run|
  {
    var jti, until := JtiOf(run, i), run[i].now + 2 * MAX_AGE;
    (jti in ItemsAt(max, run, n) && until <= ItemsAt(max, run, n)[jti]) || until < run[n - 1].sweepAt
  }

  lemma AdmitKeeps(items: map<string, Time>, max: nat, jti: string, until: Time, now: Time, old_: string, deadline: Time)
    requires old_ in items && deadline <= items[old_]
    ensures now <= deadline ==>
      old_ in AfterAdmit(items, max, jti, until, now) && deadline <= AfterAdmit(items, max, jti, until, now)[old_]
  {
  }

  lemma {:induction false} AcceptedIsRemembered(max: nat, run: seq<Attempt>, i: nat, n: nat)
    requires LockOrdered(run) && i < n <= |run| && AcceptedAt(max, run, i)
    ensures Remembered(max, run, i, n)
    decreases n
  {
    var a := run[n - 1];
    if i < n - 1 {
      AcceptedIsRemembered(max, run, i, n - 1);
      var jti, until := JtiOf(run, i), run[i].now + 2 * MAX_AGE;
      var before := ItemsAt(max, run, n - 1);
      if until < run[n - 2].sweepAt {
      } else if Check(a.signed, a.proof, a.target, a.now).None? {
        AdmitKeeps(before, max, a.proof.payload.value.jti, a.now + 2 * MAX_AGE, a.sweepAt, jti, until);
      }
    }
  }

  // --------------------------------------------- how much the cache refuses

  lemma {:induction false} CacheIsBounded(max: nat, run: seq<Attempt>, n: nat)
    requires n <= |run|
    ensures |ItemsAt(max, run, n)| <= max
  {
    if n > 0 {
      CacheIsBounded(max, run, n - 1);
      var a, items := run[n - 1], ItemsAt(max, run, n - 1);
      SubsetSize(Live(items, a.sweepAt).Keys, items.Keys);
      if Check(a.signed, a.proof, a.target, a.now).None? {
        var jti := a.proof.payload.value.jti;
        UpdateSize(items, jti, a.now + 2 * MAX_AGE);
        UpdateSize(Live(items, a.sweepAt), jti, a.now + 2 * MAX_AGE);
      }
    }
  }

  /** Identifiers accepted by the first n calls whose memory lasts to time t. */
  ghost function Recent(max: nat, run: seq<Attempt>, n: nat, t: Time): set<string>
    requires n <= |run|
  {
    set i: nat | i < n && AcceptedAt(max, run, i) && t <= run[i].now + 2 * MINUTE :: JtiOf(run, i)
  }

  lemma {:induction false} ItemsWereAccepted(max: nat, run: seq<Attempt>, n: nat, jti: string) returns (i: nat)
    requires n <= |run| && jti in ItemsAt(max, run, n)
    ensures i < n && AcceptedAt(max, run, i) && JtiOf(run, i) == jti
    ensures ItemsAt(max, run, n)[jti] == run[i].now + 2 * MAX_AGE
    decreases n
  {
    var before := ItemsAt(max, run, n - 1);
    if jti in before && ItemsAt(max, run, n)[jti] == before[jti] {
      i := ItemsWereAccepted(max, run, n - 1, jti);
    } else {
      i := n - 1;
    }
  }

  lemma LiveIsRecent(max: nat, run: seq<Attempt>, n: nat, t: Time)
    requires LockOrdered(run) && n <= |run| && (n > 0 ==> run[n - 1].sweepAt <= t)
    ensures Live(ItemsAt(max, run, n), t).Keys == Recent(max, run, n, t)
  {
    var items := ItemsAt(max, run, n);
    forall jti | jti in Live(items, t) ensures jti in Recent(max, run, n, t) {
      var i := ItemsWereAccepted(max, run, n, jti);
    }
    forall jti | jti in Recent(max, run, n, t) ensures jti in Live(items, t) {
      var i: nat :| i < n && AcceptedAt(max, run, i) && t <= run[i].now + 2 * MAX_AGE && jti == JtiOf(run, i);
      AcceptedIsRemembered(max, run, i, n);
    }
  }

  /** A proof that passes every check and whose identifier was never accepted is
      turned away exactly when the cache is full of identifiers accepted in the
      last two minutes. */
  lemma NewProofAdmittedIffRoom(max: nat, run: seq<Attempt>, n: nat)
    requires LockOrdered(run) && n < |run|
    requires Check(run[n].signed, run[n].proof, run[n].target, run[n].now) == None
    requires forall i: nat | i < n && AcceptedAt(max, run, i) :: JtiOf(run, i) != JtiOf(run, n)
    ensures AcceptedAt(max, run, n) <==> |Recent(max, run, n, run[n].sweepAt)| < max
  {
    var items, t := ItemsAt(max, run, n), run[n].sweepAt;
    if JtiOf(run, n) in items {
      var i := ItemsWereAccepted(max, run, n, JtiOf(run, n));
      assert false;
    }
    LiveIsRecent(max, run, n, t);
    assert |Live(items, t).Keys| == |Live(items, t)|;
    SubsetSize(Live(items, t).Keys, items.Keys);
  }
}
