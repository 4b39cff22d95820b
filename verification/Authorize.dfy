/** The rails of the authorization endpoint, PKCE, and the client registry. */
module Authorize {
  import opened Common
  import Tokens

  datatype Error =
    | UnknownClient | RedirectMismatch | UnsupportedType | PkceRequired | PkceMethod | PkceMalformed
    | PkceVerifierLength | PkceMismatch | ScopeMissing
    | ClientIdMissing | NoRedirectUri | BadRedirect | ClientExists

  /** The query of an authorization request; an absent parameter is empty. */
  datatype Params = Params(
    clientId: string,
    redirectUri: string,
    responseType: string,
    codeChallenge: Tokens.HashText<string>,
    challengeDecodes: bool,
    codeChallengeMethod: string,
    scope: string,
    state: string,
    nonce: string)

  datatype AuthzRequest = AuthzRequest(
    clientId: string,
    redirectUri: string,
    scope: string,
    state: string,
    codeChallenge: Tokens.HashText<string>,
    nonce: string)

  const NO_CHALLENGE: Tokens.HashText<string> := Tokens.Other("")

  datatype Validated = Accepted(request: AuthzRequest) | Refused(error: Error)

  type Clients = map<string, seq<string>>

  /** The rails, in order; `clients` maps a client to its registered redirects. */
  function Validate(clients: Clients, p: Params): Validated
  {
    if p.clientId !in clients then Refused(UnknownClient)
    else if p.redirectUri !in clients[p.clientId] then Refused(RedirectMismatch)
    else if p.responseType != "code" then Refused(UnsupportedType)
    else if p.codeChallenge == NO_CHALLENGE then Refused(PkceRequired)
    else if p.codeChallengeMethod != "S256" then Refused(PkceMethod)
    else if !p.challengeDecodes then Refused(PkceMalformed)
    else if p.scope == "" then Refused(ScopeMissing)
    else Accepted(AuthzRequest(p.clientId, p.redirectUri, p.scope, p.state, p.codeChallenge, p.nonce))
  }

  /** Whole strings are compared, never prefixes. */
  method AllowsRedirect(registered: seq<string>, candidate: string) returns (allowed: bool)
    ensures allowed <==> candidate in registered
  {
    for i := 0 to |registered|
      invariant candidate !in registered[..i]
    {
      if registered[i] == candidate {
        return true;
      }
      assert registered[..i + 1] == registered[..i] + [registered[i]];
    }
    assert registered[..|registered|] == registered;
    allowed := false;
  }

  /** A request is accepted exactly on all the rails, and then carried over unchanged;
      and any error that may be sent to the redirect address is one whose redirect was
      registered. */
  lemma AcceptedOnRails(clients: Clients, p: Params)
    ensures Validate(clients, p).Accepted? <==>
      && p.clientId in clients && p.redirectUri in clients[p.clientId]
      && p.responseType == "code" && p.codeChallengeMethod == "S256" && p.codeChallenge != NO_CHALLENGE && p.challengeDecodes
      && p.scope != ""
    ensures Validate(clients, p).Accepted? ==>
      && Validate(clients, p).request == AuthzRequest(p.clientId, p.redirectUri, p.scope, p.state, p.codeChallenge, p.nonce)
      && OnRails(clients, Validate(clients, p).request)
    ensures Validate(clients, p).Refused? && Validate(clients, p).error !in {UnknownClient, RedirectMismatch} ==>
      p.clientId in clients && p.redirectUri in clients[p.clientId]
  {
  }

  ghost predicate OnRails(clients: Clients, r: AuthzRequest)
  {
    && r.clientId in clients && r.redirectUri in clients[r.clientId]
    && r.scope != "" && r.codeChallenge != NO_CHALLENGE
  }

  /** Section 4.6 of RFC 7636 with S256 over an ideal hash. */
  function VerifyPkce(verifier: string, stored: Tokens.HashText<string>): Option<Error>
  {
    if |verifier| < 43 || |verifier| > 128 then Some(PkceVerifierLength)
    else if Tokens.Sha256(verifier) != stored then Some(PkceMismatch)
    else None
  }

  /** A challenge is opened exactly by the verifier it is the hash of, if that has 43
      to 128 characters; so by one verifier at most. */
  lemma PkceOpensExactly(verifier: string, stored: Tokens.HashText<string>)
    ensures VerifyPkce(verifier, stored).None? <==> 43 <= |verifier| <= 128 && stored == Tokens.Sha256(verifier)
    ensures forall v | VerifyPkce(v, stored).None? && VerifyPkce(verifier, stored).None? :: v == verifier
  {
  }

  class Registry {
    var clients: Clients

    constructor ()
      ensures clients == map[]
    {
      clients := map[];
    }

    /** Stores a client once; `acceptable` is the syntax check on one redirect. The
        redirects are copied, so the caller's array may change afterwards. */
    method Register(id: string, uris: array<string>, acceptable: string -> bool) returns (failed: Option<Error>)
      modifies this
      ensures failed == None <==>
        id != "" && uris.Length > 0 && (forall u | u in uris[..] :: acceptable(u)) && id !in old(clients)
      ensures clients == if failed.None? then old(clients)[id := uris[..]] else old(clients)
    {
      if id == "" {
        return Some(ClientIdMissing);
      }
      if uris.Length == 0 {
        return Some(NoRedirectUri);
      }
      for i := 0 to uris.Length
        invariant forall u | u in uris[..i] :: acceptable(u)
      {
        if !acceptable(uris[i]) {
          assert uris[i] in uris[..];
          return Some(BadRedirect);
        }
        assert uris[..i + 1] == uris[..i] + [uris[i]];
      }
      assert uris[..uris.Length] == uris[..];
      if id in clients {
        return Some(ClientExists);
      }
      clients := clients[id := uris[..]];
      failed := None;
    }
  }
}
