/** WebAuthn assertion verification (section 7.2 of W3C WebAuthn Level 2). */
module WebAuthn {
  import opened Common
  import Framing

  datatype Rejection =
    | MalformedClientData | WrongType | ChallengeMismatch | OriginMismatch | RpIdMismatch | UserNotPresent
    | SignCountRegression | MalformedAuthenticatorData | UnsupportedKey | BadSignature

  datatype Verdict = Verified(newSignCount: nat) | Rejected(reason: Rejection)

  /** The parsed client data: members that are absent or no strings are None, a
      challenge that is no base64url is Some(None). */
  datatype ClientData = ClientData(type_: Option<string>, challenge: Option<Option<Bytes>>, origin: Option<string>)

  datatype Assertion = Assertion(authenticatorData: Bytes, clientData: Option<ClientData>, signatureParses: bool)

  /** What the verifier is told by the gateway, never by the assertion. */
  datatype Expectations = Expectations(rpIdHash: Bytes, origin: string, challenge: Bytes, storedSignCount: nat)

  /** What an authenticator put its signature under. */
  datatype Signed = Signed(publicKey: Bytes, authenticatorData: Bytes, clientData: ClientData)

  const AUTH_DATA_MIN := 37

  /** Bytes 33 to 36, big endian. */
  function SignCount(authData: Bytes): nat
    requires |authData| >= AUTH_DATA_MIN
  {
    var a: int, b: int, c: int, d: int := authData[33], authData[34], authData[35], authData[36];
    ((a * 256 + b) * 256 + c) * 256 + d
  }

  function Verify(signed: set<Signed>, exp: Expectations, publicKey: Bytes, keyParses: bool, a: Assertion): Verdict
  {
    if a.clientData.None? then Rejected(MalformedClientData)
    else
      var client, authData := a.clientData.value, a.authenticatorData;
      if client.type_ != Some("webauthn.get") then Rejected(WrongType)
      else if client.challenge.None? || client.challenge.value.None? then Rejected(MalformedClientData)
      else if client.challenge.value.value != exp.challenge then Rejected(ChallengeMismatch)
      else if client.origin != Some(exp.origin) then Rejected(OriginMismatch)
      else if |authData| < AUTH_DATA_MIN then Rejected(MalformedAuthenticatorData)
      else if authData[..32] != exp.rpIdHash then Rejected(RpIdMismatch)
      else if authData[32] % 2 == 0 then Rejected(UserNotPresent)
      else if SignCount(authData) != 0 && SignCount(authData) <= exp.storedSignCount then Rejected(SignCountRegression)
      else if !keyParses then Rejected(UnsupportedKey)
      else if !a.signatureParses || Signed(publicKey, authData, client) !in signed then Rejected(BadSignature)
      else Verified(SignCount(authData))
  }

  /** Authenticator data as an authenticator lays it out, extensions last. */
  function AuthenticatorData(rpIdHash: Bytes, flags: Byte, count: nat, extensions: Bytes): Bytes
  {
    rpIdHash + [flags] + Framing.BigEndian(count, 4) + extensions
  }

  lemma SignCountRoundTrip(rpIdHash: Bytes, flags: Byte, count: nat, extensions: Bytes)
    requires |rpIdHash| == 32 && count < 0x1_0000_0000
    ensures var d := AuthenticatorData(rpIdHash, flags, count, extensions);
      |d| >= AUTH_DATA_MIN && d[..32] == rpIdHash && d[32] == flags && SignCount(d) == count
  {
    var d := AuthenticatorData(rpIdHash, flags, count, extensions);
    var b := Framing.BigEndian(count, 4);
    assert d[33..37] == b;
    assert b == Framing.BigEndian(count / 256, 3) + [count % 256];
    assert Framing.BigEndian(count / 256, 3) == Framing.BigEndian(count / 256 / 256, 2) + [count / 256 % 256];
    assert Framing.BigEndian(count / 256 / 256, 2) == [count / 256 / 256 / 256 % 256] + [count / 256 / 256 % 256];
    assert d[33] == b[0] && d[34] == b[1] && d[35] == b[2] && d[36] == b[3];
  }

  /** An honest login, the key having signed what the authenticator laid out for
      this challenge, origin and relying party with the user present, is verified
      exactly when the counter is zero or ahead of the stored one, and then reports
      that counter. */
  lemma HonestLogin(signed: set<Signed>, exp: Expectations, publicKey: Bytes, flags: Byte, count: nat, extensions: Bytes)
    requires |exp.rpIdHash| == 32 && count < 0x1_0000_0000 && flags % 2 == 1
    requires var client := ClientData(Some("webauthn.get"), Some(Some(exp.challenge)), Some(exp.origin));
      Signed(publicKey, AuthenticatorData(exp.rpIdHash, flags, count, extensions), client) in signed
    ensures var client := ClientData(Some("webauthn.get"), Some(Some(exp.challenge)), Some(exp.origin));
      var a := Assertion(AuthenticatorData(exp.rpIdHash, flags, count, extensions), Some(client), true);
      Verify(signed, exp, publicKey, true, a)
      == if count == 0 || count > exp.storedSignCount then Verified(count) else Rejected(SignCountRegression)
  {
    SignCountRoundTrip(exp.rpIdHash, flags, count, extensions);
  }

  /** This key's signature over a login for this challenge and origin, made for this
      relying party with the user present. */
  ghost predicate Genuine(signed: set<Signed>, publicKey: Bytes, keyParses: bool, a: Assertion, rpIdHash: Bytes, origin: string, challenge: Bytes)
  {
    && keyParses && a.signatureParses
    && a.clientData == Some(ClientData(Some("webauthn.get"), Some(Some(challenge)), Some(origin)))
    && |a.authenticatorData| >= 37 && a.authenticatorData[..32] == rpIdHash && a.authenticatorData[32] % 2 == 1
    && Signed(publicKey, a.authenticatorData, a.clientData.value) in signed
  }

  ghost predicate CountIsAhead(authData: Bytes, stored: nat)
    requires |authData| >= 37
  {
    SignCount(authData) == 0 || SignCount(authData) > stored
  }

  /** An assertion is verified exactly when it is this credential's signature over a
      login for this challenge, origin and relying party with the user present, and
      its counter is zero or ahead of the stored one; that counter is reported. */
  lemma VerifiedExactly(signed: set<Signed>, exp: Expectations, publicKey: Bytes, keyParses: bool, a: Assertion)
    ensures Verify(signed, exp, publicKey, keyParses, a).Verified? <==>
      && Genuine(signed, publicKey, keyParses, a, exp.rpIdHash, exp.origin, exp.challenge)
      && CountIsAhead(a.authenticatorData, exp.storedSignCount)
    ensures Verify(signed, exp, publicKey, keyParses, a).Verified? ==>
      Verify(signed, exp, publicKey, keyParses, a).newSignCount == SignCount(a.authenticatorData)
  {
  }

  /** A rejection names a check that fails. */
  lemma RejectionMeans(signed: set<Signed>, exp: Expectations, publicKey: Bytes, keyParses: bool, a: Assertion)
    ensures var v, d, client := Verify(signed, exp, publicKey, keyParses, a), a.authenticatorData, a.clientData;
      v.Rejected? ==>
        && (v.reason == MalformedClientData ==> client.None? || client.value.challenge in {None, Some(None)})
        && (v.reason in {WrongType, ChallengeMismatch, OriginMismatch, BadSignature} ==> client.Some?)
        && (v.reason == WrongType ==> client.value.type_ != Some("webauthn.get"))
        && (v.reason == ChallengeMismatch ==> client.value.challenge != Some(Some(exp.challenge)))
        && (v.reason == OriginMismatch ==> client.value.origin != Some(exp.origin))
        && (v.reason == MalformedAuthenticatorData ==> |d| < 37)
        && (v.reason in {RpIdMismatch, UserNotPresent, SignCountRegression} ==> |d| >= 37)
        && (v.reason == RpIdMismatch ==> d[..32] != exp.rpIdHash)
        && (v.reason == UserNotPresent ==> d[32] % 2 == 0)
        && (v.reason == SignCountRegression ==> !CountIsAhead(d, exp.storedSignCount))
        && (v.reason == UnsupportedKey ==> !keyParses)
        && (v.reason == BadSignature ==> !a.signatureParses || Signed(publicKey, d, client.value) !in signed)
  {
  }
}
