/** Revocation: the in-memory store, the SQL store, and what they promise over runs. */
module Revocations {
  import opened Common

  datatype Subject = Subject(tenant: string, subject: string)

  datatype Memory = Memory(tokens: map<string, Time>, subjects: map<Subject, Time>, tenants: map<string, Time>)

  /** The two tables; a cutoff row with an empty subject is tenant-wide. */
  datatype Tables = Tables(tokens: map<string, Time>, cutoffs: map<Subject, Time>)

  function Unforgotten(tokens: map<string, Time>, now: Time): map<string, Time>
  {
    map jti | jti in tokens && now <= tokens[jti] :: tokens[jti]
  }

  predicate CutOff(cutoff: Option<Time>, issuedAt: Time)
  {
    cutoff.Some? && issuedAt <= cutoff.value
  }

  predicate MemoryRefuses(m: Memory, jti: string, tenant: string, subject: string, issuedAt: Time)
  {
    || jti in m.tokens
    || CutOff(Lookup(m.subjects, Subject(tenant, subject)), issuedAt)
    || CutOff(Lookup(m.tenants, tenant), issuedAt)
  }

  predicate TablesRefuse(q: Tables, jti: string, tenant: string, subject: string, issuedAt: Time)
  {
    || jti in q.tokens
    || CutOff(Lookup(q.cutoffs, Subject(tenant, subject)), issuedAt)
    || CutOff(Lookup(q.cutoffs, Subject(tenant, "")), issuedAt)
  }

  /** The value an upsert with `greatest` leaves under k. */
  function Greatest<K>(m: map<K, Time>, k: K, t: Time): Time
  {
    if k in m && t < m[k] then m[k] else t
  }

  class MemoryStore {
    var tokens: map<string, Time>
    var subjects: map<Subject, Time>
    var tenants: map<string, Time>

    ghost function Contents(): Memory
      reads this
    {
      Memory(tokens, subjects, tenants)
    }

    constructor ()
      ensures Contents() == Memory(map[], map[], map[])
    {
      tokens, subjects, tenants := map[], map[], map[];
    }

    method RevokeToken(jti: string, forgetAfter: Time, now: Time)
      modifies this
      ensures Contents() == MemoryNext(old(Contents()), Event(Op.RevokeToken(jti, forgetAfter), now))
    {
      tokens := tokens[jti := forgetAfter];
      Sweep(now);
    }

    method RevokeSubject(tenant: string, subject: string, now: Time)
      modifies this
      ensures Contents() == MemoryNext(old(Contents()), Event(Op.RevokeSubject(tenant, subject), now))
    {
      subjects := subjects[Subject(tenant, subject) := now];
    }

    method RevokeTenant(tenant: string, now: Time)
      modifies this
      ensures Contents() == MemoryNext(old(Contents()), Event(Op.RevokeTenant(tenant), now))
    {
      tenants := tenants[tenant := now];
    }

    method IsRevoked(jti: string, tenant: string, subject: string, issuedAt: Time) returns (revoked: bool)
      ensures revoked == MemoryRefuses(Contents(), jti, tenant, subject, issuedAt)
    {
      if jti in tokens {
        return true;
      }
      var key := Subject(tenant, subject);
      if key in subjects && !(issuedAt > subjects[key]) {
        return true;
      }
      if tenant in tenants && !(issuedAt > tenants[tenant]) {
        return true;
      }
      revoked := false;
    }

    method Sweep(now: Time)
      modifies this`tokens
      ensures tokens == Unforgotten(old(tokens), now)
    {
      var todo := tokens.Keys;
      while todo != {}
        invariant todo <= tokens.Keys <= old(tokens).Keys
        invariant forall k | k in tokens :: tokens[k] == old(tokens)[k]
        invariant forall k | k in old(tokens) && k !in todo :: k in tokens <==> now <= old(tokens)[k]
      {
        var k :| k in todo;
        todo := todo - {k};
        if now > tokens[k] {
          tokens := tokens - {k};
        }
      }
    }
  }

  /** Each method is one atomic statement on the two tables; `failed` and `applied` say
      whether the database reported an error and whether the statement took effect all
      the same. */
  class SqlStore {
    var tokens: map<string, Time>
    var cutoffs: map<Subject, Time>

    ghost function Contents(): Tables
      reads this
    {
      Tables(tokens, cutoffs)
    }

    constructor ()
      ensures Contents() == Tables(map[], map[])
    {
      tokens, cutoffs := map[], map[];
    }

    method RevokeToken(jti: string, forgetAfter: Time, now: Time, failed: bool, applied: bool) returns (error: bool)
      modifies this
      ensures error == failed
      ensures Contents() == Executed(old(Contents()), Event(Op.RevokeToken(jti, forgetAfter), now), failed, applied)
    {
      if !failed || applied {
        if jti in tokens {
          tokens := tokens[jti := Greatest(tokens, jti, forgetAfter)];
        } else {
          tokens := tokens[jti := forgetAfter];
        }
      }
      error := failed;
    }

    method RevokeSubject(tenant: string, subject: string, now: Time, failed: bool, applied: bool) returns (error: bool)
      modifies this
      ensures error == failed
      ensures Contents() == Executed(old(Contents()), Event(Op.RevokeSubject(tenant, subject), now), failed, applied)
    {
      if !failed || applied {
        var key := Subject(tenant, subject);
        if key in cutoffs {
          cutoffs := cutoffs[key := Greatest(cutoffs, key, now)];
        } else {
          cutoffs := cutoffs[key := now];
        }
      }
      error := failed;
    }

    method RevokeTenant(tenant: string, now: Time, failed: bool, applied: bool) returns (error: bool)
      modifies this
      ensures error == failed
      ensures Contents() == Executed(old(Contents()), Event(Op.RevokeTenant(tenant), now), failed, applied)
    {
      error := RevokeSubject(tenant, "", now, failed, applied);
    }

    method DeleteExpired(now: Time, failed: bool, applied: bool) returns (error: bool)
      modifies this
      ensures error == failed
      ensures Contents() == Executed(old(Contents()), Event(Op.DeleteExpired, now), failed, applied)
    {
      if !failed || applied {
        tokens := map jti | jti in tokens && !(tokens[jti] < now) :: tokens[jti];
      }
      error := failed;
    }

    /** The adapter's answer: a database that cannot answer means revoked. */
    method IsRevoked(jti: string, tenant: string, subject: string, issuedAt: Time, failed: bool) returns (revoked: bool)
      ensures revoked == (failed || TablesRefuse(Contents(), jti, tenant, subject, issuedAt))
    {
      if failed {
        return true;
      }
      revoked := jti in tokens || exists s | s in {subject, ""} :: Subject(tenant, s) in cutoffs && cutoffs[Subject(tenant, s)] >= issuedAt;
    }
  }

  // ------------------------------------------------------------------ runs

  /** DeleteExpired is the worker's statement; the in-memory store has no such call. */
  datatype Op =
    | RevokeToken(jti: string, forgetAfter: Time)
    | RevokeSubject(tenant: string, subject: string)
    | RevokeTenant(tenant: string)
    | DeleteExpired

  datatype Event = Event(op: Op, now: Time)

  function MemoryNext(m: Memory, e: Event): Memory
  {
    match e.op
    case RevokeToken(jti, forgetAfter) => m.(tokens := Unforgotten(m.tokens[jti := forgetAfter], e.now))
    case RevokeSubject(tenant, subject) => m.(subjects := m.subjects[Subject(tenant, subject) := e.now])
    case RevokeTenant(tenant) => m.(tenants := m.tenants[tenant := e.now])
    case DeleteExpired => m
  }

  function TablesNext(q: Tables, e: Event): Tables
  {
    match e.op
    case RevokeToken(jti, forgetAfter) => q.(tokens := q.tokens[jti := Greatest(q.tokens, jti, forgetAfter)])
    case RevokeSubject(tenant, subject) =>
      var key := Subject(tenant, subject);
      q.(cutoffs := q.cutoffs[key := Greatest(q.cutoffs, key, e.now)])
    case RevokeTenant(tenant) =>
      var key := Subject(tenant, "");
      q.(cutoffs := q.cutoffs[key := Greatest(q.cutoffs, key, e.now)])
    case DeleteExpired => q.(tokens := Unforgotten(q.tokens, e.now))
  }

  /** The tables after a statement that the database may have failed. */
  function Executed(q: Tables, e: Event, failed: bool, applied: bool): Tables
  {
    if !failed || applied then TablesNext(q, e) else q
  }

  ghost function MemoryAt(run: seq<Event>, n: nat): Memory
    requires n <= |run|
  {
    if n == 0 then Memory(map[], map[], map[]) else MemoryNext(MemoryAt(run, n - 1), run[n - 1])
  }

  ghost function TablesAt(run: seq<Event>, n: nat): Tables
    requires n <= |run|
  {
    if n == 0 then Tables(map[], map[]) else TablesNext(TablesAt(run, n - 1), run[n - 1])
  }

  ghost predicate Ordered(run: seq<Event>)
  {
    forall i, j | 0 <= i <= j < |run| :: run[i].now <= run[j].now
  }

  ghost predicate MemoryCutOff(m: Memory, tenant: string, subject: string, issuedAt: Time)
  {
    CutOff(Lookup(m.subjects, Subject(tenant, subject)), issuedAt) || CutOff(Lookup(m.tenants, tenant), issuedAt)
  }

  ghost predicate TablesCutOff(q: Tables, tenant: string, subject: string, issuedAt: Time)
  {
    CutOff(Lookup(q.cutoffs, Subject(tenant, subject)), issuedAt) || CutOff(Lookup(q.cutoffs, Subject(tenant, "")), issuedAt)
  }

  /** Both cutoff records against each other, and every cutoff against the clock. */
  ghost predicate CutoffsMatch(m: Memory, q: Tables, now: Time)
  {
    && (forall k | k in m.subjects :: m.subjects[k] <= now && k in q.cutoffs && m.subjects[k] <= q.cutoffs[k])
    && (forall t | t in m.tenants :: m.tenants[t] <= now && Subject(t, "") in q.cutoffs && m.tenants[t] <= q.cutoffs[Subject(t, "")])
    && (forall k | k in q.cutoffs ::
          || (k in m.subjects && q.cutoffs[k] == m.subjects[k])
          || (k.subject == "" && k.tenant in m.tenants && q.cutoffs[k] == m.tenants[k.tenant]))
  }

  /** Clocks do not run back, so `greatest` always takes the new cutoff. */
  lemma MatchAfterSubject(m: Memory, q: Tables, k: Subject, now: Time)
    requires CutoffsMatch(m, q, now)
    ensures CutoffsMatch(m.(subjects := m.subjects[k := now]), q.(cutoffs := q.cutoffs[k := Greatest(q.cutoffs, k, now)]), now)
    ensures Greatest(q.cutoffs, k, now) == now
  {
    if k in q.cutoffs {
      assert q.cutoffs[k] <= now;
    }
  }

  lemma MatchAfterTenant(m: Memory, q: Tables, t: string, now: Time)
    requires CutoffsMatch(m, q, now)
    ensures var k := Subject(t, "");
      CutoffsMatch(m.(tenants := m.tenants[t := now]), q.(cutoffs := q.cutoffs[k := Greatest(q.cutoffs, k, now)]), now)
    ensures Greatest(q.cutoffs, Subject(t, ""), now) == now
  {
    if Subject(t, "") in q.cutoffs {
      assert q.cutoffs[Subject(t, "")] <= now;
    }
  }

  lemma MatchStep(m: Memory, q: Tables, e: Event)
    requires CutoffsMatch(m, q, e.now)
    ensures CutoffsMatch(MemoryNext(m, e), TablesNext(q, e), e.now)
  {
    match e.op
    case RevokeSubject(tenant, subject) => MatchAfterSubject(m, q, Subject(tenant, subject), e.now);
    case RevokeTenant(tenant) => MatchAfterTenant(m, q, tenant, e.now);
    case _ =>
  }

  lemma MatchLater(m: Memory, q: Tables, now: Time, later: Time)
    requires CutoffsMatch(m, q, now) && now <= later
    ensures CutoffsMatch(m, q, later)
  {
  }

  lemma {:induction false} CutoffsStayMatched(run: seq<Event>, n: nat, now: Time)
    requires Ordered(run) && n <= |run| && (n > 0 ==> run[n - 1].now <= now)
    ensures CutoffsMatch(MemoryAt(run, n), TablesAt(run, n), now)
  {
    hide CutoffsMatch;
    if n > 0 {
      var e := run[n - 1];
      CutoffsStayMatched(run, n - 1, e.now);
      MatchStep(MemoryAt(run, n - 1), TablesAt(run, n - 1), e);
      MatchLater(MemoryAt(run, n), TablesAt(run, n), e.now, now);
    } else {
      NothingMatches(now);
    }
  }

  lemma NothingMatches(now: Time)
    ensures CutoffsMatch(Memory(map[], map[], map[]), Tables(map[], map[]), now)
  {
  }

  lemma CutoffsAdvance(m: Memory, q: Tables, e: Event, tenant: string, subject: string, issuedAt: Time)
    requires CutoffsMatch(m, q, e.now)
    ensures MemoryCutOff(m, tenant, subject, issuedAt) ==> MemoryCutOff(MemoryNext(m, e), tenant, subject, issuedAt)
    ensures TablesCutOff(q, tenant, subject, issuedAt) ==> TablesCutOff(TablesNext(q, e), tenant, subject, issuedAt)
  {
    MemoryCutOffStep(m, q, e, tenant, subject, issuedAt);
    TablesCutOffStep(m, q, e, tenant, subject, issuedAt);
    hide *;
  }

  /** A cutoff, once it refuses an issue time, refuses it for good, in either store. */
  lemma {:induction false} CutoffsOnlyAdvance(run: seq<Event>, i: nat, n: nat, tenant: string, subject: string, issuedAt: Time)
    requires Ordered(run) && i <= n <= |run|
    ensures MemoryCutOff(MemoryAt(run, i), tenant, subject, issuedAt) ==> MemoryCutOff(MemoryAt(run, n), tenant, subject, issuedAt)
    ensures TablesCutOff(TablesAt(run, i), tenant, subject, issuedAt) ==> TablesCutOff(TablesAt(run, n), tenant, subject, issuedAt)
    decreases n
  {
    hide CutoffsMatch;
    hide MemoryCutOff;
    hide TablesCutOff;
    if i < n {
      CutoffsOnlyAdvance(run, i, n - 1, tenant, subject, issuedAt);
      CutoffsStayMatched(run, n - 1, run[n - 1].now);
      CutoffsAdvance(MemoryAt(run, n - 1), TablesAt(run, n - 1), run[n - 1], tenant, subject, issuedAt);
    }
  }

  /** Whether a token was named by one of the first n revocations. */
  ghost predicate TokenNamed(run: seq<Event>, n: nat, jti: string)
    requires n <= |run|
  {
    exists i | 0 <= i < n :: run[i].op.RevokeToken? && run[i].op.jti == jti
  }

  /** No revocation of the token had a forget-after before t. */
  ghost predicate Unlapsed(run: seq<Event>, n: nat, jti: string, t: Time)
    requires n <= |run|
  {
    forall i | 0 <= i < n && run[i].op.RevokeToken? && run[i].op.jti == jti :: t <= run[i].op.forgetAfter
  }

  ghost predicate HeldBoth(run: seq<Event>, n: nat, jti: string, t: Time)
    requires n <= |run|
  {
    && (jti in MemoryAt(run, n).tokens <==> TokenNamed(run, n, jti))
    && (jti in TablesAt(run, n).tokens <==> TokenNamed(run, n, jti))
    && (jti in MemoryAt(run, n).tokens ==> t <= MemoryAt(run, n).tokens[jti])
    && (jti in TablesAt(run, n).tokens ==> t <= TablesAt(run, n).tokens[jti])
  }

  /** Until the earliest forget-after, both stores hold exactly the named tokens. */
  lemma {:induction false} NamedTokensAreHeld(run: seq<Event>, n: nat, jti: string, t: Time)
    requires Ordered(run) && n <= |run| && Unlapsed(run, n, jti, t) && (n > 0 ==> run[n - 1].now <= t)
    ensures HeldBoth(run, n, jti, t)
  {
    if n > 0 {
      NamedTokensAreHeld(run, n - 1, jti, t);
      var e := run[n - 1];
      assert TokenNamed(run, n, jti) <==> TokenNamed(run, n - 1, jti) || (e.op.RevokeToken? && e.op.jti == jti);
    }
  }

  /** The guard a caller can check: no subject revocation with an empty subject id
      is ahead of its tenant's cutoff. */
  ghost predicate NoEmptySubjectAhead(m: Memory)
  {
    forall t | Subject(t, "") in m.subjects :: t in m.tenants && m.subjects[Subject(t, "")] <= m.tenants[t]
  }

  ghost predicate SameCutoffAnswers(m: Memory, q: Tables)
  {
    forall tenant, subject, issuedAt ::
      MemoryCutOff(m, tenant, subject, issuedAt) == TablesCutOff(q, tenant, subject, issuedAt)
  }

  /** The stores give the same cutoff answers exactly under that guard: the SQL
      store reads an empty subject id as the whole tenant, the in-memory one does not. */
  lemma StoresAgreeExactly(run: seq<Event>, n: nat)
    requires Ordered(run) && n <= |run|
    ensures SameCutoffAnswers(MemoryAt(run, n), TablesAt(run, n)) <==> NoEmptySubjectAhead(MemoryAt(run, n))
  {
    var m, q := MemoryAt(run, n), TablesAt(run, n);
    CutoffsStayMatched(run, n, if n > 0 then run[n - 1].now else 0);
    if NoEmptySubjectAhead(m) {
      forall tenant, subject, issuedAt
        ensures MemoryCutOff(m, tenant, subject, issuedAt) == TablesCutOff(q, tenant, subject, issuedAt)
      {
        AgreeWhenGuarded(m, q, tenant, subject, issuedAt, if n > 0 then run[n - 1].now else 0);
      }
    } else {
      var t :| Subject(t, "") in m.subjects && !(t in m.tenants && m.subjects[Subject(t, "")] <= m.tenants[t]);
      var other := UnusedSubject(set k | k in m.subjects :: k.subject);
      var issuedAt := m.subjects[Subject(t, "")];
      assert Subject(t, other) !in m.subjects;
      assert TablesCutOff(q, t, other, issuedAt) && !MemoryCutOff(m, t, other, issuedAt);
    }
  }

  lemma AgreeWhenGuarded(m: Memory, q: Tables, tenant: string, subject: string, issuedAt: Time, now: Time)
    requires CutoffsMatch(m, q, now) && NoEmptySubjectAhead(m)
    ensures MemoryCutOff(m, tenant, subject, issuedAt) == TablesCutOff(q, tenant, subject, issuedAt)
  {
    var own, wide := Subject(tenant, subject), Subject(tenant, "");
    if TablesCutOff(q, tenant, subject, issuedAt) {
      if CutOff(Lookup(q.cutoffs, own), issuedAt) {
        assert own in q.cutoffs;
      } else {
        assert wide in q.cutoffs;
      }
    }
  }

  lemma UnusedSubject(used: set<string>) returns (s: string)
    ensures s != "" && s !in used
  {
    var n := LongerThanAll(used);
    s := seq(n + 1, _ => 'x');
  }

  lemma {:induction false} LongerThanAll(used: set<string>) returns (n: nat)
    ensures forall s | s in used :: |s| <= n
    decreases |used|
  {
    n := 0;
    if used != {} {
      var s :| s in used;
      n := LongerThanAll(used - {s});
      n := if n < |s| then |s| else n;
    }
  }

  lemma {:induction false} NonemptySubjectsGuard(run: seq<Event>, n: nat)
    requires n <= |run| && forall i | 0 <= i < n :: run[i].op.RevokeSubject? ==> run[i].op.subject != ""
    ensures forall k | k in MemoryAt(run, n).subjects :: k.subject != ""
  {
    if n > 0 {
      NonemptySubjectsGuard(run, n - 1);
    }
  }

  /** The in-memory and the SQL store answer every query alike on runs that name
      only nonempty subjects, up to the forget-after of the token asked about. */
  lemma StoresSimulateEachOther(run: seq<Event>, n: nat, jti: string, tenant: string, subject: string, issuedAt: Time, now: Time)
    requires Ordered(run) && n <= |run| && (n > 0 ==> run[n - 1].now <= now)
    requires forall i | 0 <= i < n :: run[i].op.RevokeSubject? ==> run[i].op.subject != ""
    requires Unlapsed(run, n, jti, now)
    ensures MemoryRefuses(MemoryAt(run, n), jti, tenant, subject, issuedAt)
         == TablesRefuse(TablesAt(run, n), jti, tenant, subject, issuedAt)
  {
    NamedTokensAreHeld(run, n, jti, now);
    NonemptySubjectsGuard(run, n);
    CutoffsStayMatched(run, n, now);
    AgreeWhenGuarded(MemoryAt(run, n), TablesAt(run, n), tenant, subject, issuedAt, now);
  }

  /** A subject revocation with an empty id is where they part: the SQL store then
      refuses every subject of the tenant, the in-memory store only the empty one. */
  lemma EmptySubjectExample(t: Time)
    ensures var run := [Event(RevokeSubject("acme", ""), t)];
      TablesRefuse(TablesAt(run, 1), "j", "acme", "alice", t) && !MemoryRefuses(MemoryAt(run, 1), "j", "acme", "alice", t)
  {
    var run := [Event(RevokeSubject("acme", ""), t)];
    assert TablesAt(run, 0) == Tables(map[], map[]) && MemoryAt(run, 0) == Memory(map[], map[], map[]);
    assert Subject("acme", "alice") != Subject("acme", "");
  }

  // ------------------------------------------------ cutoffs and issue times

  /** With issue times floored to seconds, a cutoff refuses every token issued at
      or before it, none issued a second or more after, and in between exactly
      those whose second began at or before it. */
  lemma CutoffAgainstIssueTime(cutoff: Time, t: Time)
    ensures CutOff(Some(cutoff), Unix(t) * SECOND) <==> Unix(t) <= Unix(cutoff)
    ensures t <= cutoff ==> CutOff(Some(cutoff), Unix(t) * SECOND)
    ensures cutoff + SECOND <= t ==> !CutOff(Some(cutoff), Unix(t) * SECOND)
  {
    if Unix(t) <= Unix(cutoff) {
      assert Unix(t) * SECOND <= Unix(cutoff) * SECOND;
    } else {
      assert (Unix(cutoff) + 1) * SECOND <= Unix(t) * SECOND;
    }
  }

  /** Revocation at or after the issue time is permanent, through any further
      revocations and sweeps. */
  lemma CutoffIsPermanent(run: seq<Event>, i: nat, n: nat, jti: string, tenant: string, subject: string, issued: Time)
    requires Ordered(run) && i < n <= |run| && issued <= run[i].now
    requires run[i].op == RevokeSubject(tenant, subject) || run[i].op == RevokeTenant(tenant)
    ensures MemoryRefuses(MemoryAt(run, n), jti, tenant, subject, Unix(issued) * SECOND)
    ensures TablesRefuse(TablesAt(run, n), jti, tenant, subject, Unix(issued) * SECOND)
  {
    hide CutoffsMatch;
    CutoffAgainstIssueTime(run[i].now, issued);
    RevokedNow(run, i, tenant, subject, issued);
    CutoffsOnlyAdvance(run, i + 1, n, tenant, subject, Unix(issued) * SECOND);
    hide MemoryAt;
    hide TablesAt;
  }

  lemma RevokedNow(run: seq<Event>, i: nat, tenant: string, subject: string, issued: Time)
    requires Ordered(run) && i < |run| && issued <= run[i].now
    requires run[i].op == RevokeSubject(tenant, subject) || run[i].op == RevokeTenant(tenant)
    ensures MemoryCutOff(MemoryAt(run, i + 1), tenant, subject, Unix(issued) * SECOND)
    ensures TablesCutOff(TablesAt(run, i + 1), tenant, subject, Unix(issued) * SECOND)
  {
    hide CutoffsMatch;
    var m, q, now := MemoryAt(run, i), TablesAt(run, i), run[i].now;
    CutoffAgainstIssueTime(now, issued);
    CutoffsStayMatched(run, i, now);
    if run[i].op.RevokeSubject? {
      MatchAfterSubject(m, q, Subject(tenant, subject), now);
    } else {
      MatchAfterTenant(m, q, tenant, now);
    }
  }

  // ------------------------------------------- how long a token is remembered

  ghost predicate Names(e: Event, jti: string)
  {
    e.op.RevokeToken? && e.op.jti == jti
  }

  /** Revocation i is the last of the token, and no later revocation swept it away. */
  ghost predicate KeptInMemory(run: seq<Event>, i: nat, n: nat, jti: string)
    requires n <= |run|
  {
    && i < n && Names(run[i], jti) && (forall j | i < j < n :: !Names(run[j], jti))
    && forall j | i <= j < n && run[j].op.RevokeToken? :: run[j].now <= run[i].op.forgetAfter
  }

  /** No cleaning of the table came after revocation i's forget-after. */
  ghost predicate KeptInTables(run: seq<Event>, i: nat, n: nat, jti: string)
    requires n <= |run|
  {
    && i < n && Names(run[i], jti)
    && forall j | i < j < n && run[j].op.DeleteExpired? :: run[j].now <= run[i].op.forgetAfter
  }

  lemma {:induction false} MemoryKeeps(run: seq<Event>, i: nat, n: nat, jti: string)
    requires n <= |run| && KeptInMemory(run, i, n, jti)
    ensures jti in MemoryAt(run, n).tokens && MemoryAt(run, n).tokens[jti] == run[i].op.forgetAfter
    decreases n
  {
    if i < n - 1 {
      MemoryKeeps(run, i, n - 1, jti);
    }
  }

  lemma {:induction false} MemoryKeptBy(run: seq<Event>, n: nat, jti: string) returns (i: nat)
    requires n <= |run| && jti in MemoryAt(run, n).tokens
    ensures KeptInMemory(run, i, n, jti) && MemoryAt(run, n).tokens[jti] == run[i].op.forgetAfter
    decreases n
  {
    if Names(run[n - 1], jti) {
      i := n - 1;
    } else {
      i := MemoryKeptBy(run, n - 1, jti);
    }
  }

  lemma {:induction false} TablesKeep(run: seq<Event>, i: nat, n: nat, jti: string)
    requires n <= |run| && KeptInTables(run, i, n, jti)
    ensures jti in TablesAt(run, n).tokens && run[i].op.forgetAfter <= TablesAt(run, n).tokens[jti]
    decreases n
  {
    if i < n - 1 {
      TablesKeep(run, i, n - 1, jti);
    }
  }

  lemma {:induction false} TablesKeptBy(run: seq<Event>, n: nat, jti: string) returns (i: nat)
    requires n <= |run| && jti in TablesAt(run, n).tokens
    ensures KeptInTables(run, i, n, jti) && TablesAt(run, n).tokens[jti] == run[i].op.forgetAfter
    decreases n
  {
    var before := TablesAt(run, n - 1).tokens;
    if jti in before && before[jti] == TablesAt(run, n).tokens[jti] {
      i := TablesKeptBy(run, n - 1, jti);
    } else {
      i := n - 1;
    }
  }

  /** In any run, the in-memory store remembers a token exactly by its last revocation,
      and only while no revocation comes after that one's forget-after; the table
      remembers it exactly by any revocation whose forget-after no cleaning has passed. */
  lemma RememberedExactly(run: seq<Event>, n: nat, jti: string)
    requires n <= |run|
    ensures jti in MemoryAt(run, n).tokens <==> exists i :: KeptInMemory(run, i, n, jti)
    ensures jti in TablesAt(run, n).tokens <==> exists i :: KeptInTables(run, i, n, jti)
  {
    hide KeptInMemory;
    hide KeptInTables;
    if jti in MemoryAt(run, n).tokens {
      var i := MemoryKeptBy(run, n, jti);
    }
    if jti in TablesAt(run, n).tokens {
      var i := TablesKeptBy(run, n, jti);
    }
    forall i | KeptInMemory(run, i, n, jti) ensures jti in MemoryAt(run, n).tokens {
      MemoryKeeps(run, i, n, jti);
    }
    forall i | KeptInTables(run, i, n, jti) ensures jti in TablesAt(run, n).tokens {
      TablesKeep(run, i, n, jti);
    }
  }

  lemma {:induction false} LastNaming(run: seq<Event>, i: nat, n: nat, jti: string) returns (last: nat)
    requires i < n <= |run| && Names(run[i], jti)
    ensures i <= last < n && Names(run[last], jti) && forall j | last < j < n :: !Names(run[j], jti)
    decreases n
  {
    if Names(run[n - 1], jti) {
      last := n - 1;
    } else {
      last := LastNaming(run, i, n - 1, jti);
    }
  }

  /** No later revocation of the token may be forgotten before t. */
  ghost predicate NotCutShort(run: seq<Event>, i: nat, n: nat, jti: string, t: Time)
    requires n <= |run|
  {
    forall j | i < j < n && Names(run[j], jti) :: t <= run[j].op.forgetAfter
  }

  /** A token revoked with a forget-after of now or later is refused: by the table
      whatever came after, by the in-memory store unless a later revocation of it
      was to be forgotten sooner. */
  lemma TokenRevocationLasts(run: seq<Event>, i: nat, n: nat, jti: string, tenant: string, subject: string, issuedAt: Time, now: Time)
    requires Ordered(run) && i < n <= |run| && run[n - 1].now <= now && Names(run[i], jti) && now <= run[i].op.forgetAfter
    ensures TablesRefuse(TablesAt(run, n), jti, tenant, subject, issuedAt)
    ensures NotCutShort(run, i, n, jti, now) ==> MemoryRefuses(MemoryAt(run, n), jti, tenant, subject, issuedAt)
  {
    assert KeptInTables(run, i, n, jti);
    TablesKeep(run, i, n, jti);
    if NotCutShort(run, i, n, jti, now) {
      var last := LastNaming(run, i, n, jti);
      assert KeptInMemory(run, last, n, jti);
      MemoryKeeps(run, last, n, jti);
    }
    hide MemoryAt;
    hide TablesAt;
  }

  // ------------------------------------------------------- refused, and why

  /** One of the first n revocations cuts off the subject, or its whole tenant, at or
      after the issue time. */
  ghost predicate CutOffBy(run: seq<Event>, n: nat, tenant: string, subject: string, issuedAt: Time)
    requires n <= |run|
  {
    exists i | 0 <= i < n :: issuedAt <= run[i].now && run[i].op in {RevokeSubject(tenant, subject), RevokeTenant(tenant)}
  }

  lemma CutOffByStep(run: seq<Event>, n: nat, tenant: string, subject: string, issuedAt: Time)
    requires n < |run|
    ensures CutOffBy(run, n + 1, tenant, subject, issuedAt) <==>
      || CutOffBy(run, n, tenant, subject, issuedAt)
      || (issuedAt <= run[n].now && run[n].op in {RevokeSubject(tenant, subject), RevokeTenant(tenant)})
  {
  }

  lemma MemoryCutOffStep(m: Memory, q: Tables, e: Event, tenant: string, subject: string, issuedAt: Time)
    requires CutoffsMatch(m, q, e.now)
    ensures MemoryCutOff(MemoryNext(m, e), tenant, subject, issuedAt) <==>
      || MemoryCutOff(m, tenant, subject, issuedAt)
      || (issuedAt <= e.now && e.op in {RevokeSubject(tenant, subject), RevokeTenant(tenant)})
  {
    assert (Subject(tenant, subject) in m.subjects ==> m.subjects[Subject(tenant, subject)] <= e.now)
        && (tenant in m.tenants ==> m.tenants[tenant] <= e.now);
    hide CutoffsMatch;
  }

  lemma TablesCutOffStep(m: Memory, q: Tables, e: Event, tenant: string, subject: string, issuedAt: Time)
    requires CutoffsMatch(m, q, e.now)
    ensures TablesCutOff(TablesNext(q, e), tenant, subject, issuedAt) <==>
      || TablesCutOff(q, tenant, subject, issuedAt)
      || (issuedAt <= e.now && e.op in {RevokeSubject(tenant, subject), RevokeSubject(tenant, ""), RevokeTenant(tenant)})
  {
    assert (Subject(tenant, subject) in q.cutoffs ==> q.cutoffs[Subject(tenant, subject)] <= e.now)
        && (Subject(tenant, "") in q.cutoffs ==> q.cutoffs[Subject(tenant, "")] <= e.now);
    hide CutoffsMatch;
  }

  lemma {:induction false} CutOffExactly(run: seq<Event>, n: nat, tenant: string, subject: string, issuedAt: Time)
    requires Ordered(run) && n <= |run|
    ensures MemoryCutOff(MemoryAt(run, n), tenant, subject, issuedAt) <==> CutOffBy(run, n, tenant, subject, issuedAt)
    ensures TablesCutOff(TablesAt(run, n), tenant, subject, issuedAt)
       <==> CutOffBy(run, n, tenant, subject, issuedAt) || CutOffBy(run, n, tenant, "", issuedAt)
  {
    hide CutoffsMatch;
    if n > 0 {
      CutOffExactly(run, n - 1, tenant, subject, issuedAt);
      CutoffsStayMatched(run, n - 1, run[n - 1].now);
      MemoryCutOffStep(MemoryAt(run, n - 1), TablesAt(run, n - 1), run[n - 1], tenant, subject, issuedAt);
      TablesCutOffStep(MemoryAt(run, n - 1), TablesAt(run, n - 1), run[n - 1], tenant, subject, issuedAt);
      CutOffByStep(run, n - 1, tenant, subject, issuedAt);
      CutOffByStep(run, n - 1, tenant, "", issuedAt);
    }
    hide MemoryCutOff;
    hide TablesCutOff;
    hide CutOffBy;
  }

  /** Over any run a token is refused exactly when it is still remembered as revoked, or
      a revocation of its subject or its tenant came at or after its issue time; the
      table takes the empty subject for the whole tenant. Nobody else is ever refused. */
  lemma RefusedExactly(run: seq<Event>, n: nat, jti: string, tenant: string, subject: string, issuedAt: Time)
    requires Ordered(run) && n <= |run|
    ensures MemoryRefuses(MemoryAt(run, n), jti, tenant, subject, issuedAt)
       <==> (exists i :: KeptInMemory(run, i, n, jti)) || CutOffBy(run, n, tenant, subject, issuedAt)
    ensures TablesRefuse(TablesAt(run, n), jti, tenant, subject, issuedAt)
       <==> (exists i :: KeptInTables(run, i, n, jti)) || CutOffBy(run, n, tenant, subject, issuedAt) || CutOffBy(run, n, tenant, "", issuedAt)
  {
    RememberedExactly(run, n, jti);
    CutOffExactly(run, n, tenant, subject, issuedAt);
    hide KeptInMemory;
    hide KeptInTables;
    hide CutOffBy;
  }
}
