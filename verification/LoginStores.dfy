/** The stores of the login ceremony: pending requests, challenges, credentials. */
module LoginStores {
  import opened Common
  import opened Authorize

  const PENDING_TTL: Time := 10 * MINUTE
  const CHALLENGE_TTL: Time := 2 * MINUTE

  datatype Credential = Credential(id: string, tenantId: string, subjectId: string, publicKey: Bytes, keyParses: bool, signCount: nat)

  function AfterPut<V>(m: map<string, Expiring<V>>, k: string, v: V, ttl: Time, now: Time): map<string, Expiring<V>>
  {
    Unexpired(m, now)[k := Expiring(v, now + ttl)]
  }

  /** What a single-use take yields; the entry is gone whatever the answer. */
  function Taken<V>(m: map<string, Expiring<V>>, k: string, now: Time): Option<V>
  {
    if k in m && now <= m[k].expiresAt then Some(m[k].value) else None
  }

  class PendingStore {
    var requests: map<string, Expiring<AuthzRequest>>

    constructor ()
      ensures requests == map[]
    {
      requests := map[];
    }

    /** `random` is the id drawn, None when randomness failed. */
    method Put(req: AuthzRequest, random: Option<string>, now: Time) returns (id: Option<string>)
      modifies this
      ensures id == random
      ensures requests == if random.Some? then AfterPut(old(requests), random.value, req, 10 * MINUTE, now) else old(requests)
    {
      if random.None? {
        return None;
      }
      requests := EvictExpired(requests, now);
      requests := requests[random.value := Expiring(req, now + PENDING_TTL)];
      id := random;
    }

    method Take(id: string, now: Time) returns (req: Option<AuthzRequest>)
      modifies this
      ensures req == Taken(old(requests), id, now)
      ensures requests == old(requests) - {id}
    {
      if id !in requests {
        return None;
      }
      var e := requests[id];
      requests := requests - {id};
      if now > e.expiresAt {
        return None;
      }
      req := Some(e.value);
    }
  }

  class Challenges {
    var items: map<string, Expiring<Bytes>>

    constructor ()
      ensures items == map[]
    {
      items := map[];
    }

    /** A new challenge for the same request replaces the previous one. */
    method Issue(rid: string, random: Option<Bytes>, now: Time) returns (challenge: Option<Bytes>)
      modifies this
      ensures challenge == random
      ensures items == if random.Some? then AfterPut(old(items), rid, random.value, 2 * MINUTE, now) else old(items)
    {
      if random.None? {
        return None;
      }
      items := EvictExpired(items, now);
      items := items[rid := Expiring(random.value, now + CHALLENGE_TTL)];
      challenge := random;
    }

    method Take(rid: string, now: Time) returns (challenge: Option<Bytes>)
      modifies this
      ensures challenge == Taken(old(items), rid, now)
      ensures items == old(items) - {rid}
    {
      if rid !in items {
        return None;
      }
      var ch := items[rid];
      items := items - {rid};
      if now > ch.expiresAt {
        return None;
      }
      challenge := Some(ch.value);
    }
  }

  function WithSignCount(items: map<string, Credential>, id: string, count: nat): map<string, Credential>
  {
    if id in items then items[id := items[id].(signCount := count)] else items
  }

  class Credentials {
    var items: map<string, Credential>

    constructor ()
      ensures items == map[]
    {
      items := map[];
    }

    method Add(c: Credential)
      modifies this
      ensures items == old(items)[c.id := c]
    {
      items := items[c.id := c];
    }

    method Get(id: string) returns (c: Option<Credential>)
      ensures c == Lookup(items, id)
    {
      c := if id in items then Some(items[id]) else None;
    }

    method UpdateSignCount(id: string, count: nat) returns (found: bool)
      modifies this
      ensures found == (id in old(items))
      ensures items == WithSignCount(old(items), id, count)
    {
      if id !in items {
        return false;
      }
      var c := items[id];
      c := c.(signCount := count);
      items := items[id := c];
      found := true;
    }
  }
}
