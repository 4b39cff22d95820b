/** Runs of the whole gateway, seen from the protected routes: each is a run of
    SessionRuns, whose results therefore hold of it. */
module GatewayRoutes {
  import opened Common
  import opened Gateway
  import Dpop
  import ForgetAfter
  import Protocol
  import Revocations
  import SessionRuns
  import Sessions
  import Tokens

  // --------------------------------------------------------- the projection

  /** What a step of the gateway is to the verifier, the token ledger and the revocation
      store; None if it touches none of them. */
  ghost function RouteStep(cfg: Config, s: State, e: Event): Option<SessionRuns.Step>
  {
    match e.step
    case Login(_) => None
    case ShowProof(q, proof) =>
      if q in s.protocol.exchanges && s.protocol.exchanges[q].KeyChecked? && cfg.dpop && proof.Some? then Some(SessionRuns.Prove(proof.value))
      else None
    case MintToken(q, jti) =>
      if q in s.protocol.exchanges && s.protocol.exchanges[q].Proved?
      then
        var x: Protocol.Exchange := s.protocol.exchanges[q];
        Some(SessionRuns.Mint(x.grant.subjectId, x.grant.tenantId, x.grant.scope, if x.confirm.None? then None else Lookup(s.shown, q), jti))
      else None
    case Serve(r, dbFailed) => Some(SessionRuns.Request(r, dbFailed))
    case Revoke(op) => Some(SessionRuns.Revoke(op))
  }

  ghost predicate Touches(cfg: Config, run: seq<Event>, i: nat)
    requires i < |run|
  {
    RouteStep(cfg, StateAt(cfg, run, i), run[i]).Some?
  }

  /** The places of those steps among the first n. */
  ghost function Places(cfg: Config, run: seq<Event>, n: nat): (places: seq<nat>)
    requires n <= |run|
    ensures forall j | 0 <= j < |places| :: places[j] < n && Touches(cfg, run, places[j])
    ensures forall j, k | 0 <= j < k < |places| :: places[j] < places[k]
  {
    if n == 0 then []
    else Places(cfg, run, n - 1) + if Touches(cfg, run, n - 1) then [n - 1] else []
  }

  ghost function RouteEvent(cfg: Config, run: seq<Event>, i: nat): SessionRuns.Event
    requires i < |run| && Touches(cfg, run, i)
  {
    SessionEvent(RouteStep(cfg, StateAt(cfg, run, i), run[i]).value, run[i])
  }

  /** The run as the protected routes see it. */
  ghost function Routed(cfg: Config, run: seq<Event>, n: nat): (routed: seq<SessionRuns.Event>)
    requires n <= |run|
    ensures var places := Places(cfg, run, n);
      |routed| == |places| && forall j | 0 <= j < |places| :: routed[j] == RouteEvent(cfg, run, places[j])
  {
    if n == 0 then []
    else Routed(cfg, run, n - 1) + if Touches(cfg, run, n - 1) then [RouteEvent(cfg, run, n - 1)] else []
  }

  lemma RouteStepIsNext(cfg: Config, s: State, e: Event)
    ensures var step := RouteStep(cfg, s, e);
      Next(cfg, s, e).sessions
      == if step.None? then s.sessions else SessionRuns.Next(cfg.Routes(), s.sessions, SessionEvent(step.value, e))
  {
    hide SessionRuns.Next;
    hide Protocol.Next;
    hide Dpop.OutcomeOf;
  }

  lemma {:induction false} RunOfPrefix(cfg: SessionRuns.Config, run: seq<SessionRuns.Event>, run': seq<SessionRuns.Event>, n: nat)
    requires n <= |run| && run <= run'
    ensures SessionRuns.StateAt(cfg, run', n) == SessionRuns.StateAt(cfg, run, n)
  {
    hide SessionRuns.Next;
    if n > 0 {
      RunOfPrefix(cfg, run, run', n - 1);
    }
  }

  /** The gateway's stores, attempts, tokens, revocations and passes are those of the
      run the routes see. */
  lemma {:induction false} SameRoutes(cfg: Config, run: seq<Event>, n: nat)
    requires n <= |run|
    ensures var routed := Routed(cfg, run, n); StateAt(cfg, run, n).sessions == SessionRuns.StateAt(cfg.Routes(), routed, |routed|)
  {
    hide Next;
    hide RouteStep;
    hide SessionRuns.Next;
    if n > 0 {
      SameRoutes(cfg, run, n - 1);
      var before := Routed(cfg, run, n - 1);
      RouteStepIsNext(cfg, StateAt(cfg, run, n - 1), run[n - 1]);
      RunOfPrefix(cfg.Routes(), before, Routed(cfg, run, n), |before|);
    }
  }

  lemma RoutedIsValid(cfg: Config, run: seq<Event>, n: nat)
    requires ValidRun(cfg, run) && n <= |run|
    ensures SessionRuns.ValidRun(Routed(cfg, run, n))
    ensures Apart(run) ==> SessionRuns.Apart(Routed(cfg, run, n))
  {
    hide Touches;
    hide FreshAt;
    hide RouteStep;
    hide StateAt;
  }

  /** No step reads its clock before an earlier one has taken effect. */
  ghost predicate Apart(run: seq<Event>)
  {
    forall i, j | 0 <= i < j < |run| :: run[i].at <= run[j].read
  }

  /** Where a step of the gateway comes in the run the routes see. */
  lemma {:induction false} PlaceOf(cfg: Config, run: seq<Event>, i: nat, n: nat)
    requires i < n <= |run| && Touches(cfg, run, i)
    ensures |Places(cfg, run, i)| < |Places(cfg, run, n)| && Places(cfg, run, n)[|Places(cfg, run, i)|] == i
    ensures Routed(cfg, run, i) <= Routed(cfg, run, n)
    decreases n
  {
    hide Touches;
    hide RouteEvent;
    if i < n - 1 {
      PlaceOf(cfg, run, i, n - 1);
    }
  }

  // ------------------------------------------------------- at the door

  ghost function AnswerNow(cfg: Config, s: State, e: Event): Sessions.Answer
    requires e.step.Serve?
  {
    SessionRuns.AnswerNow(cfg.Routes(), s.sessions, SessionEvent(SessionRuns.Request(e.step.r, e.step.dbFailed), e))
  }

  /** Step n of the gateway, a request, is step m of the run the routes see, and is
      answered as the routes alone would answer it. */
  ghost predicate Seen(cfg: Config, run: seq<Event>, n: nat, routed: seq<SessionRuns.Event>, m: nat)
  {
    && n < |run| && run[n].step.Serve? && m < |routed|
    && routed[m] == SessionEvent(SessionRuns.Request(run[n].step.r, run[n].step.dbFailed), run[n])
    && AnswerNow(cfg, StateAt(cfg, run, n), run[n]) == SessionRuns.AnswerNow(cfg.Routes(), SessionRuns.StateAt(cfg.Routes(), routed, m), routed[m])
  }

  lemma IsSeen(cfg: Config, run: seq<Event>, n: nat)
    requires n < |run| && run[n].step.Serve?
    ensures Seen(cfg, run, n, Routed(cfg, run, n + 1), |Places(cfg, run, n)|)
  {
    hide SessionRuns.AnswerNow;
    hide SessionRuns.StateAt;
    hide Places;
    hide Routed;
    var routed, before := Routed(cfg, run, n + 1), Routed(cfg, run, n);
    SameRoutes(cfg, run, n);
    PlaceOf(cfg, run, n, n + 1);
    RunOfPrefix(cfg.Routes(), before, routed, |before|);
    hide StateAt;
  }

  /** The run the routes see has the revocations of the gateway, in order, at their times. */
  ghost predicate Revokes(run: seq<Event>, routed: seq<SessionRuns.Event>, places: seq<nat>)
  {
    && |routed| == |places|
    && (forall j, k | 0 <= j < k < |places| :: places[j] < places[k])
    && forall j | 0 <= j < |places| && routed[j].step.Revoke? ::
         places[j] < |run| && run[places[j]].step == Revoke(routed[j].step.op) && run[places[j]].at == routed[j].at
  }

  lemma RevokesAlike(cfg: Config, run: seq<Event>, n: nat)
    requires n <= |run|
    ensures Revokes(run, Routed(cfg, run, n), Places(cfg, run, n))
  {
    hide StateAt;
    hide Places;
    hide Routed;
  }

  /** A revocation and a request after it, as the routes see them. */
  lemma RevokedThenAsked(cfg: Config, run: seq<Event>, i: nat, n: nat) returns (routed: seq<SessionRuns.Event>, places: seq<nat>, k: nat, m: nat)
    requires ValidRun(cfg, run) && i < n < |run| && run[i].step.Revoke? && run[n].step.Serve?
    ensures SessionRuns.ValidRun(routed) && Seen(cfg, run, n, routed, m) && Revokes(run, routed, places)
    ensures k < m < |places| == |routed| && places[k] == i && places[m] == n
    ensures routed[k] == SessionEvent(SessionRuns.Revoke(run[i].step.op), run[i])
  {
    hide *;
    routed, places := Routed(cfg, run, n + 1), Places(cfg, run, n + 1);
    k, m := |Places(cfg, run, i)|, |Places(cfg, run, n)|;
    RoutedIsValid(cfg, run, n + 1);
    IsSeen(cfg, run, n);
    RevokesAlike(cfg, run, n + 1);
    RevocationTouches(cfg, run, i);
    RequestTouches(cfg, run, n);
    PlaceOf(cfg, run, i, n);
    PlaceOf(cfg, run, i, n + 1);
    PlaceOf(cfg, run, n, n + 1);
  }

  lemma RevocationTouches(cfg: Config, run: seq<Event>, i: nat)
    requires i < |run| && run[i].step.Revoke?
    ensures Touches(cfg, run, i) && RouteEvent(cfg, run, i) == SessionEvent(SessionRuns.Revoke(run[i].step.op), run[i])
  {
    hide StateAt;
  }

  lemma RequestTouches(cfg: Config, run: seq<Event>, n: nat)
    requires n < |run| && run[n].step.Serve?
    ensures Touches(cfg, run, n)
  {
    hide StateAt;
  }

  lemma SeenAsRequest(cfg: Config, run: seq<Event>, n: nat, routed: seq<SessionRuns.Event>, m: nat)
    requires Seen(cfg, run, n, routed, m)
    ensures n < |run| && run[n].step.Serve? && m < |routed| && routed[m].step == SessionRuns.Request(run[n].step.r, run[n].step.dbFailed)
    ensures routed[m].at == run[n].at && routed[m].read == run[n].read
    ensures AnswerNow(cfg, StateAt(cfg, run, n), run[n])
         == SessionRuns.AnswerNow(cfg.Routes(), SessionRuns.StateAt(cfg.Routes(), routed, m), routed[m])
  {
    hide AnswerNow;
    hide SessionRuns.AnswerNow;
    hide StateAt;
    hide SessionRuns.StateAt;
  }

  /** Once a subject or a tenant is revoked, the gateway serves none of their tokens that
      was issued up to then, whatever logins, exchanges and requests go on meanwhile. */
  lemma {:induction false} CutoffHolds(cfg: Config, run: seq<Event>, i: nat, n: nat, c: Tokens.Claims)
    requires ValidRun(cfg, run) && i < n < |run| && run[i].step.Revoke? && SessionRuns.CutsOff(run[i].step.op, c)
    requires run[n].step.Serve? && run[n].step.r.decoded.claims == Some(c) && c.issuedAt * SECOND <= run[i].at
    ensures AnswerNow(cfg, StateAt(cfg, run, n), run[n]).Challenged?
  {
    hide *;
    var routed, places, k, m := RevokedThenAsked(cfg, run, i, n);
    SeenAsRequest(cfg, run, n, routed, m);
    assert routed[k].step == SessionRuns.Revoke(run[i].step.op) && routed[k].at == run[i].at by { AsSession(SessionRuns.Revoke(run[i].step.op), run[i]); }
    SessionRuns.CutoffHoldsAtTheDoor(cfg.Routes(), routed, k, m, c);
  }

  lemma AsSession(step: SessionRuns.Step, e: Event)
    ensures SessionEvent(step, e).step == step && SessionEvent(step, e).at == e.at
  {
  }

  /** The step revokes c's token, not to be forgotten before `end`. */
  ghost predicate RevokesUntil(e: Event, c: Tokens.Claims, end: Time)
  {
    e.step.Revoke? && e.step.op.RevokeToken? && e.step.op.jti == c.jti && end <= e.step.op.forgetAfter
  }

  /** And so does every later revocation of it before step n. */
  ghost predicate NotCutShort(run: seq<Event>, i: nat, n: nat, c: Tokens.Claims, end: Time)
    requires n <= |run|
  {
    forall j | i < j < n && run[j].step.Revoke? && run[j].step.op.RevokeToken? && run[j].step.op.jti == c.jti :: RevokesUntil(run[j], c, end)
  }

  lemma PresentsAlike(cfg: Config, run: seq<Event>, i: nat, n: nat, c: Tokens.Claims, d: Time,
                      routed: seq<SessionRuns.Event>, places: seq<nat>, k: nat, m: nat)
    requires SessionRuns.ValidRun(routed) && Revokes(run, routed, places) && k < m < |places| == |routed|
    requires i < n < |run| && places[k] == i && places[m] == n
    requires RevokesUntil(run[i], c, SessionRuns.WindowEnd(c) + d) && routed[k] == SessionEvent(SessionRuns.Revoke(run[i].step.op), run[i])
    requires run[n].step.Serve? && routed[m].step == SessionRuns.Request(run[n].step.r, run[n].step.dbFailed)
    requires routed[m].at - routed[m].read <= d && run[n].step.r.decoded.claims == Some(c)
    requires !cfg.sql ==> NotCutShort(run, i, n, c, SessionRuns.WindowEnd(c) + d)
    ensures ForgetAfter.Presents(cfg.Routes(), routed, k, m, c, run[i].step.op.forgetAfter, run[i].at, d)
  {
    hide SessionRuns.ValidRun;
    hide SessionRuns.WindowEnd;
    assert run[i].step.op == Revocations.Op.RevokeToken(c.jti, run[i].step.op.forgetAfter);
    if !cfg.sql {
      forall j | k < j < m && routed[j].step.Revoke? && routed[j].step.op.RevokeToken? && routed[j].step.op.jti == c.jti
        ensures SessionRuns.Revokes(routed, j, c, SessionRuns.WindowEnd(c) + d)
      {
        assert i < places[j] < n;
        assert RevokesUntil(run[places[j]], c, SessionRuns.WindowEnd(c) + d);
      }
    }
  }

  /** The gateway serves no token revoked until d past its window to a request that takes
      effect within d of its clock reading: with the SQL store whatever follows, with the
      in-memory store if every later revocation of the token is kept that long too. */
  lemma {:induction false} RevokedStaysOut(cfg: Config, run: seq<Event>, i: nat, n: nat, c: Tokens.Claims, d: Time)
    requires ValidRun(cfg, run) && i < n < |run| && RevokesUntil(run[i], c, SessionRuns.WindowEnd(c) + d)
    requires !cfg.sql ==> NotCutShort(run, i, n, c, SessionRuns.WindowEnd(c) + d)
    requires run[n].step.Serve? && run[n].step.r.decoded.claims == Some(c) && run[n].at - run[n].read <= d
    ensures AnswerNow(cfg, StateAt(cfg, run, n), run[n]).Challenged?
  {
    hide *;
    IsRevocation(run[i], c, SessionRuns.WindowEnd(c) + d);
    var routed, places, k, m := RevokedThenAsked(cfg, run, i, n);
    SeenAsRequest(cfg, run, n, routed, m);
    PresentsAlike(cfg, run, i, n, c, d, routed, places, k, m);
    ForgetAfter.KeptLongEnough(cfg.Routes(), routed, k, m, c, run[i].step.op.forgetAfter, run[i].at, d);
  }

  lemma IsRevocation(e: Event, c: Tokens.Claims, end: Time)
    requires RevokesUntil(e, c, end)
    ensures e.step.Revoke? && e.step.op.RevokeToken? && end <= e.step.op.forgetAfter
  {
  }

  /** Distinct passes of the gateway consume distinct proofs, whenever steps do not
      overlap; and however they overlap, two passes with one proof have raced. */
  lemma EveryPassItsOwnProof(cfg: Config, run: seq<Event>, n: nat, k: nat, l: nat)
    requires ValidRun(cfg, run) && n <= |run| && k != l
    requires var s := StateAt(cfg, run, n).sessions; k < |s.passes| && l < |s.passes|
    ensures var s := StateAt(cfg, run, n).sessions;
      && s.passes[k].r.proof.Some? && s.passes[l].r.proof.Some?
      && s.passes[k].attempt < |s.attempts| && s.passes[l].attempt < |s.attempts|
      && (s.passes[k].r.proof.value.payload == s.passes[l].r.proof.value.payload ==>
            !Apart(run)
            && (SessionRuns.Raced(cfg.Routes(), s, s.passes[k].attempt, s.passes[l].attempt)
                || SessionRuns.Raced(cfg.Routes(), s, s.passes[l].attempt, s.passes[k].attempt)))
  {
    hide *;
    SameRoutes(cfg, run, n);
    RoutedIsValid(cfg, run, n);
    SessionRuns.EveryPassItsOwnProof(cfg.Routes(), Routed(cfg, run, n), |Routed(cfg, run, n)|, k, l);
  }

  /** The same of a pass and a proof that an exchange showed for its token. */
  lemma IssueProofsOpenNothing(cfg: Config, run: seq<Event>, n: nat, k: nat, i: nat)
    requires ValidRun(cfg, run) && n <= |run|
    requires var s := StateAt(cfg, run, n).sessions; k < |s.passes| && i < |s.issued| && s.issued[i].attempt.Some?
    ensures var s := StateAt(cfg, run, n).sessions; var atIssue := s.issued[i].attempt.value;
      && atIssue < |s.attempts| && s.passes[k].attempt < |s.attempts| && s.passes[k].r.proof.Some?
      && (s.attempts[atIssue].proof.payload == s.passes[k].r.proof.value.payload ==>
            !Apart(run)
            && (SessionRuns.Raced(cfg.Routes(), s, atIssue, s.passes[k].attempt)
                || SessionRuns.Raced(cfg.Routes(), s, s.passes[k].attempt, atIssue)))
  {
    hide *;
    SameRoutes(cfg, run, n);
    RoutedIsValid(cfg, run, n);
    SessionRuns.IssueProofsOpenNothing(cfg.Routes(), Routed(cfg, run, n), |Routed(cfg, run, n)|, k, i);
  }
}
