/** Authorization codes: the in-memory store, the SQL table with its adapter, and
    the exactly-once specification both refine. */
module CodeStores {
  import opened Common
  import Tokens

  const CODE_TTL: Time := 60 * SECOND

  /** What a code stands for. */
  datatype Grant = Grant(
    clientId: string,
    redirectUri: string,
    scope: string,
    nonce: string,
    codeChallenge: Tokens.HashText<string>,
    subjectId: string,
    tenantId: string,
    authTime: Time)

  type Stored = Expiring<Grant>

  datatype Error = Unknown | WrongClient | WrongRedirect | Unavailable

  datatype Redeemed = Granted(grant: Grant) | Refused(error: Error)

  function Judged(s: Stored, client: string, redirect: string, now: Time): Redeemed
  {
    if now > s.expiresAt then Refused(Unknown)
    else if s.value.clientId != client then Refused(WrongClient)
    else if s.value.redirectUri != redirect then Refused(WrongRedirect)
    else Granted(s.value)
  }

  function RedeemFrom(codes: map<string, Stored>, code: string, client: string, redirect: string, now: Time): Redeemed
  {
    if code in codes then Judged(codes[code], client, redirect, now) else Refused(Unknown)
  }

  class CodeStore {
    var codes: map<string, Stored>

    constructor ()
      ensures codes == map[]
    {
      codes := map[];
    }

    /** `random` is the code drawn, None when randomness failed. */
    method Issue(g: Grant, random: Option<string>, now: Time) returns (code: Option<string>)
      modifies this
      ensures code == random
      ensures codes == if random.Some? then Unexpired(old(codes), now)[random.value := Expiring(g, now + 60 * SECOND)] else old(codes)
    {
      if random.None? {
        return None;
      }
      codes := EvictExpired(codes, now);
      codes := codes[random.value := Expiring(g, now + CODE_TTL)];
      code := random;
    }

    /** Consumes the code before any check, so a wrong client or redirect burns it. */
    method Redeem(code: string, client: string, redirect: string, now: Time) returns (r: Redeemed)
      modifies this
      ensures r == RedeemFrom(old(codes), code, client, redirect, now)
      ensures r.Granted? <==>
        && code in old(codes) && now <= old(codes)[code].expiresAt
        && old(codes)[code].value.clientId == client && old(codes)[code].value.redirectUri == redirect
      ensures r.Granted? ==> r.grant == old(codes)[code].value
      ensures r == Refused(Unknown) <==> code !in old(codes) || now > old(codes)[code].expiresAt
      ensures r == Refused(WrongClient) ==> old(codes)[code].value.clientId != client
      ensures r == Refused(WrongRedirect) ==> old(codes)[code].value.redirectUri != redirect
      ensures codes == old(codes) - {code}
    {
      if code !in codes {
        return Refused(Unknown);
      }
      var s := codes[code];
      codes := codes - {code};
      if now > s.expiresAt {
        return Refused(Unknown);
      }
      if s.value.clientId != client {
        return Refused(WrongClient);
      }
      if s.value.redirectUri != redirect {
        return Refused(WrongRedirect);
      }
      r := Granted(s.value);
    }
  }

  /** The table behind the adapter. Every method is one atomic statement, shared by
      all replicas; `failed` and `applied` say whether the database reported an
      error and whether the statement took effect all the same. */
  class CodeTable {
    var rows: map<string, Stored>

    constructor ()
      ensures rows == map[]
    {
      rows := map[];
    }

    method Issue(g: Grant, random: Option<string>, now: Time, failed: bool, applied: bool) returns (code: Option<string>)
      modifies this
      ensures code.Some? <==> random.Some? && random.value !in old(rows) && !failed
      ensures code.Some? ==> code == random
      ensures rows == if random.Some? && random.value !in old(rows) && (!failed || applied)
                      then old(rows)[random.value := Expiring(g, now + 60 * SECOND)] else old(rows)
    {
      if random.None? || random.value in rows {
        return None;
      }
      if !failed || applied {
        rows := rows[random.value := Expiring(g, now + CODE_TTL)];
      }
      code := if failed then None else random;
    }

    /** The adapter collapses every refusal of the table to one. */
    method Redeem(code: string, client: string, redirect: string, now: Time, failed: bool, applied: bool) returns (r: Redeemed)
      modifies this
      ensures failed ==> r == Refused(Unavailable)
      ensures !failed ==> r == Collapsed(RedeemFrom(old(rows), code, client, redirect, now))
      ensures r.Granted? <==>
        && !failed && code in old(rows) && now <= old(rows)[code].expiresAt
        && old(rows)[code].value.clientId == client && old(rows)[code].value.redirectUri == redirect
      ensures r.Granted? ==> r.grant == old(rows)[code].value
      ensures rows == if !failed || applied then old(rows) - {code} else old(rows)
    {
      var row := Lookup(rows, code);
      if !failed || applied {
        rows := rows - {code};
      }
      if failed {
        return Refused(Unavailable);
      }
      if row.None? || now > row.value.expiresAt {
        return Refused(Unknown);
      }
      if row.value.value.clientId != client || row.value.value.redirectUri != redirect {
        return Refused(Unknown);
      }
      r := Granted(row.value.value);
    }

    method DeleteExpired(now: Time, failed: bool, applied: bool) returns (error: bool)
      modifies this
      ensures error == failed
      ensures rows == if !failed || applied then Unexpired(old(rows), now) else old(rows)
    {
      if !failed || applied {
        rows := map c | c in rows && !(rows[c].expiresAt < now) :: rows[c];
      }
      error := failed;
    }
  }

  function Collapsed(r: Redeemed): Redeemed
  {
    if r.Granted? then r else Refused(Unknown)
  }

  // ------------------------------------------------------------------ runs

  /** What happens to a store, from any number of replicas. LostIssue and LostRedeem are
      statements the database answered with an error, after applying them or not. */
  datatype Op =
    | Issue(code: string, grant: Grant)
    | LostIssue(code: string, grant: Grant, applied: bool)
    | Redeem(code: string, client: string, redirect: string)
    | LostRedeem(code: string, applied: bool)
    | DeleteExpired

  datatype Event = Event(op: Op, now: Time)

  function MemoryNext(codes: map<string, Stored>, e: Event): map<string, Stored>
  {
    match e.op
    case Issue(code, g) => Unexpired(codes, e.now)[code := Expiring(g, e.now + CODE_TTL)]
    case LostIssue(code, g, applied) => if applied then Unexpired(codes, e.now)[code := Expiring(g, e.now + CODE_TTL)] else codes
    case Redeem(code, _, _) => codes - {code}
    case LostRedeem(code, applied) => if applied then codes - {code} else codes
    case DeleteExpired => codes
  }

  function TableNext(rows: map<string, Stored>, e: Event): map<string, Stored>
  {
    match e.op
    case Issue(code, g) => rows[code := Expiring(g, e.now + CODE_TTL)]
    case LostIssue(code, g, applied) => if applied then rows[code := Expiring(g, e.now + CODE_TTL)] else rows
    case Redeem(code, _, _) => rows - {code}
    case LostRedeem(code, applied) => if applied then rows - {code} else rows
    case DeleteExpired => Unexpired(rows, e.now)
  }

  /** The specification never forgets: every code issued, and every code whose one
      attempt is spent. */
  datatype Spec = Spec(issued: map<string, Stored>, burned: set<string>)

  ghost function SpecNext(s: Spec, e: Event): Spec
  {
    match e.op
    case Issue(code, g) => s.(issued := s.issued[code := Expiring(g, e.now + CODE_TTL)])
    case LostIssue(code, g, applied) => if applied then s.(issued := s.issued[code := Expiring(g, e.now + CODE_TTL)]) else s
    case Redeem(code, _, _) => if code in s.issued then s.(burned := s.burned + {code}) else s
    case LostRedeem(code, applied) => if applied && code in s.issued then s.(burned := s.burned + {code}) else s
    case DeleteExpired => s
  }

  /** The grant a redemption yields: the code was issued, never tried before, is not
      older than its lifetime, and is presented by its client at its redirect. */
  ghost function SpecAnswer(s: Spec, e: Event): Option<Grant>
  {
    if e.op.Redeem? && e.op.code in s.issued && e.op.code !in s.burned
       && e.now <= s.issued[e.op.code].expiresAt
       && s.issued[e.op.code].value.clientId == e.op.client
       && s.issued[e.op.code].value.redirectUri == e.op.redirect
    then Some(s.issued[e.op.code].value) else None
  }

  /** What the token endpoint sees of a store: a grant, or one undifferentiated refusal. */
  ghost function Answer(codes: map<string, Stored>, e: Event): Option<Grant>
  {
    if e.op.Redeem? && RedeemFrom(codes, e.op.code, e.op.client, e.op.redirect, e.now).Granted?
    then Some(RedeemFrom(codes, e.op.code, e.op.client, e.op.redirect, e.now).grant) else None
  }

  ghost function SpecAt(run: seq<Event>, n: nat): Spec
    requires n <= |run|
  {
    if n == 0 then Spec(map[], {}) else SpecNext(SpecAt(run, n - 1), run[n - 1])
  }

  ghost function MemoryAt(run: seq<Event>, n: nat): map<string, Stored>
    requires n <= |run|
  {
    if n == 0 then map[] else MemoryNext(MemoryAt(run, n - 1), run[n - 1])
  }

  ghost function TableAt(run: seq<Event>, n: nat): map<string, Stored>
    requires n <= |run|
  {
    if n == 0 then map[] else TableNext(TableAt(run, n - 1), run[n - 1])
  }

  /** A nondecreasing clock, and codes drawn fresh. */
  ghost predicate ValidRun(run: seq<Event>)
  {
    && (forall i, j | 0 <= i <= j < |run| :: run[i].now <= run[j].now)
    && forall i, j | 0 <= i < j < |run| && Draws(run[i].op) && Draws(run[j].op) :: run[i].op.code != run[j].op.code
  }

  predicate Draws(op: Op)
  {
    op.Issue? || op.LostIssue?
  }

  /** A store may have dropped only what the specification would refuse anyway. */
  ghost predicate Refines(codes: map<string, Stored>, s: Spec, now: Time)
  {
    && (forall c | c in codes :: c in s.issued && c !in s.burned && codes[c] == s.issued[c])
    && (forall c | c in s.issued && c !in s.burned && now <= s.issued[c].expiresAt :: c in codes)
    && s.burned <= s.issued.Keys
  }

  lemma RefinesStep(codes: map<string, Stored>, s: Spec, e: Event, codes': map<string, Stored>, later: Time)
    requires Refines(codes, s, e.now) && e.now <= later
    requires codes' == MemoryNext(codes, e) || codes' == TableNext(codes, e)
    requires Draws(e.op) ==> e.op.code !in s.issued
    ensures Refines(codes', SpecNext(s, e), later)
  {
  }

  lemma {:induction false} IssuedByRun(run: seq<Event>, n: nat, c: string) returns (i: nat)
    requires n <= |run| && c in SpecAt(run, n).issued
    ensures i < n && Draws(run[i].op) && run[i].op.code == c
    decreases n
  {
    if c in SpecAt(run, n - 1).issued {
      i := IssuedByRun(run, n - 1, c);
    } else {
      i := n - 1;
    }
  }

  lemma FreshAtIssue(run: seq<Event>, n: nat)
    requires ValidRun(run) && n < |run| && Draws(run[n].op)
    ensures run[n].op.code !in SpecAt(run, n).issued
  {
    if run[n].op.code in SpecAt(run, n).issued {
      var i := IssuedByRun(run, n, run[n].op.code);
    }
  }

  lemma {:induction false} StoresRefine(run: seq<Event>, n: nat, now: Time)
    requires ValidRun(run) && n <= |run| && (n > 0 ==> run[n - 1].now <= now)
    ensures Refines(MemoryAt(run, n), SpecAt(run, n), now)
    ensures Refines(TableAt(run, n), SpecAt(run, n), now)
  {
    if n > 0 {
      var e := run[n - 1];
      StoresRefine(run, n - 1, e.now);
      if Draws(e.op) {
        FreshAtIssue(run, n - 1);
      }
      RefinesStep(MemoryAt(run, n - 1), SpecAt(run, n - 1), e, MemoryAt(run, n), now);
      RefinesStep(TableAt(run, n - 1), SpecAt(run, n - 1), e, TableAt(run, n), now);
    }
  }

  /** Both stores answer every redemption as the specification does: eviction and
      DeleteExpired cannot be seen, and the endpoint behaves alike over either. */
  lemma StoresAnswerAlike(run: seq<Event>, n: nat)
    requires ValidRun(run) && n < |run|
    ensures Answer(MemoryAt(run, n), run[n]) == SpecAnswer(SpecAt(run, n), run[n])
    ensures Answer(TableAt(run, n), run[n]) == SpecAnswer(SpecAt(run, n), run[n])
  {
    StoresRefine(run, n, run[n].now);
  }

  lemma {:induction false} BurnedStaysBurned(run: seq<Event>, i: nat, n: nat, code: string)
    requires i <= n <= |run| && code in SpecAt(run, i).burned
    ensures code in SpecAt(run, n).burned
    decreases n
  {
    if i < n {
      BurnedStaysBurned(run, i, n - 1, code);
    }
  }

  /** Once a code exists, its first attempt is its last: whatever that attempt's
      outcome, and whatever database errors come between, no later one succeeds. */
  lemma FirstAttemptBurns(run: seq<Event>, i: nat, j: nat)
    requires ValidRun(run) && i < j < |run| && run[i].op.Redeem? && run[j].op.Redeem?
    requires run[i].op.code == run[j].op.code && run[i].op.code in SpecAt(run, i).issued
    ensures Answer(MemoryAt(run, j), run[j]) == None
    ensures Answer(TableAt(run, j), run[j]) == None
  {
    BurnedStaysBurned(run, i + 1, j, run[i].op.code);
    StoresAnswerAlike(run, j);
  }

  /** Each code succeeds at most once, over any interleaving of replicas. */
  lemma AtMostOneSuccess(run: seq<Event>, i: nat, j: nat)
    requires ValidRun(run) && i < j < |run| && run[i].op.Redeem? && run[j].op.Redeem? && run[i].op.code == run[j].op.code
    ensures Answer(TableAt(run, i), run[i]).Some? ==> Answer(TableAt(run, j), run[j]).None?
    ensures Answer(MemoryAt(run, i), run[i]).Some? ==> Answer(MemoryAt(run, j), run[j]).None?
  {
    StoresAnswerAlike(run, i);
    if SpecAnswer(SpecAt(run, i), run[i]).Some? {
      FirstAttemptBurns(run, i, j);
    }
  }
}
