/** The whole gateway: the login-to-token protocol and the protected routes, with one
    replay cache, one signing key and one clock between them. */
module Gateway {
  import opened Common
  import opened Protocol
  import opened ProtocolInvariants
  import Authorize
  import CodeStores
  import Dpop
  import ProtocolRuns
  import Revocations
  import SessionRuns
  import Sessions
  import Tokens

  /** `dpop` is false on a server set up without DPoP. */
  datatype Config = Config(protocol: Protocol.Config, tokenUri: Option<Dpop.Uri>, max: nat, sql: bool, dpop: bool)
  {
    function Routes(): SessionRuns.Config
    {
      SessionRuns.Config(Sessions.Config(protocol.issuer, protocol.audience), tokenUri, max, sql)
    }
  }

  /** `shown` is the place, among the attempts on the verifier, of the proof an exchange showed. */
  datatype State = State(protocol: Protocol.State, sessions: SessionRuns.State, shown: map<nat, nat>)

  const INITIAL: State := State.State(Protocol.INITIAL, SessionRuns.INITIAL, map[])

  /** A step of the protocol up to and including PKCE, the two last steps of an exchange,
      and the steps of the protected routes. */
  datatype Step =
    | Login(step: Protocol.Step)
    | ShowProof(q: nat, proof: Option<Dpop.Proof>)
    | MintToken(q: nat, jti: Option<string>)
    | Serve(r: Sessions.Request, dbFailed: bool)
    | Revoke(op: Revocations.Op)

  datatype Event = Event(step: Step, proofs: set<Dpop.Signed>, read: Time, at: Time)

  predicate BeforeProof(step: Protocol.Step)
  {
    !step.CheckProof? && !step.MintToken?
  }

  function ProtocolEvent(step: Protocol.Step, e: Event): Protocol.Event
  {
    Protocol.Event(step, e.at)
  }

  function SessionEvent(step: SessionRuns.Step, e: Event): SessionRuns.Event
  {
    SessionRuns.Event(step, e.proofs, e.read, e.at)
  }

  ghost function AfterShowProof(cfg: Config, s: State, e: Event): State
    requires e.step.ShowProof?
  {
    var ShowProof(q, proof) := e.step;
    if q !in s.protocol.exchanges || !s.protocol.exchanges[q].KeyChecked? then s
    else if !cfg.dpop then Told(cfg, s, e, None)
    else if proof.None? then Told(cfg, s, e, Some(Dpop.Refused(Dpop.Malformed)))
    else
      var sessions := SessionRuns.Next(cfg.Routes(), s.sessions, SessionEvent(SessionRuns.Prove(proof.value), e));
      var k := |s.sessions.attempts|;
      var outcome := Dpop.OutcomeOf(cfg.max, sessions.attempts, k);
      Told(cfg, s, e, Some(outcome)).(sessions := sessions, shown := s.shown[q := k])
  }

  /** The exchange is told how its proof fared. */
  function Told(cfg: Config, s: State, e: Event, outcome: Option<Dpop.Outcome>): State
    requires e.step.ShowProof?
  {
    s.(protocol := Protocol.Next(cfg.protocol, s.protocol, ProtocolEvent(CheckProof(e.step.q, outcome), e)))
  }

  ghost function AfterMint(cfg: Config, s: State, e: Event): State
    requires e.step.MintToken?
  {
    var MintToken(q, jti) := e.step;
    if q !in s.protocol.exchanges || !s.protocol.exchanges[q].Proved? then s
    else
      var Proved(_, g, confirm) := s.protocol.exchanges[q];
      var attempt := if confirm.None? then None else Lookup(s.shown, q);
      s.(protocol := Protocol.Next(cfg.protocol, s.protocol, ProtocolEvent(Protocol.MintToken(q, jti), e)),
         sessions := SessionRuns.Next(cfg.Routes(), s.sessions,
                       SessionEvent(SessionRuns.Mint(g.subjectId, g.tenantId, g.scope, attempt, jti), e)))
  }

  ghost function Next(cfg: Config, s: State, e: Event): State
  {
    match e.step
    case Login(step) =>
      if BeforeProof(step) then s.(protocol := Protocol.Next(cfg.protocol, s.protocol, ProtocolEvent(step, e))) else s
    case ShowProof(_, _) => AfterShowProof(cfg, s, e)
    case MintToken(_, _) => AfterMint(cfg, s, e)
    case Serve(r, dbFailed) =>
      s.(sessions := SessionRuns.Next(cfg.Routes(), s.sessions, SessionEvent(SessionRuns.Request(r, dbFailed), e)))
    case Revoke(op) =>
      s.(sessions := SessionRuns.Next(cfg.Routes(), s.sessions, SessionEvent(SessionRuns.Revoke(op), e)))
  }

  ghost function StateAt(cfg: Config, run: seq<Event>, n: nat): State
    requires n <= |run|
  {
    if n == 0 then INITIAL else Next(cfg, StateAt(cfg, run, n - 1), run[n - 1])
  }

  ghost predicate FreshAt(cfg: Config, run: seq<Event>, n: nat)
    requires n < |run|
  {
    run[n].step.Login? ==> Protocol.Fresh(StateAt(cfg, run, n).protocol, run[n].step.step)
  }

  /** Any interleaving, in the order in which steps take effect, under one clock. */
  ghost predicate ValidRun(cfg: Config, run: seq<Event>)
  {
    && (forall i | 0 <= i < |run| :: run[i].read <= run[i].at)
    && (forall i, j | 0 <= i <= j < |run| :: run[i].at <= run[j].at)
    && forall n | 0 <= n < |run| :: FreshAt(cfg, run, n)
  }

  // ------------------------------------------------- the two records together

  /** An exchange told of a thumbprint showed an accepted proof by its key. */
  ghost predicate ToldTruly(cfg: Config, x: Exchange, q: nat, shown: map<nat, nat>, attempts: seq<Dpop.Attempt>)
  {
    x.Proved? && x.confirm.Some? ==>
      q in shown && SessionRuns.Mintable(cfg.Routes(), attempts, shown[q])
      && x.confirm == SessionRuns.Confirm(cfg.Routes(), attempts, Some(shown[q]))
  }

  ghost predicate AllToldTruly(cfg: Config, exchanges: map<nat, Exchange>, shown: map<nat, nat>, attempts: seq<Dpop.Attempt>)
  {
    forall q | q in exchanges :: ToldTruly(cfg, exchanges[q], q, shown, attempts)
  }

  /** Each token was minted by the call that redeemed its code and is done, and is bound
      by the proof that this call showed. */
  ghost predicate MintedByRedeemer(tokens: seq<Minted>, issued: seq<SessionRuns.Issued>, redeemed: map<string, Redemption>,
                                   exchanges: map<nat, Exchange>, shown: map<nat, nat>)
  {
    |tokens| == |issued| && forall i | 0 <= i < |tokens| :: ByRedeemer(tokens[i], issued[i], redeemed, exchanges, shown)
  }

  ghost predicate ByRedeemer(t: Minted, i: SessionRuns.Issued, redeemed: map<string, Redemption>, exchanges: map<nat, Exchange>, shown: map<nat, nat>)
  {
    && t.claims == i.claims && t.code in redeemed
    && var q := redeemed[t.code].process;
       && q in exchanges && exchanges[q].Done?
       && (i.attempt.Some? ==> q in shown && shown[q] == i.attempt.value)
  }

  ghost predicate Inv(cfg: Config, s: State, t: Time)
  {
    && ProtocolRuns.Inv(cfg.protocol, s.protocol, t) && SessionRuns.Inv(cfg.Routes(), s.sessions, t)
    && MintedByRedeemer(s.protocol.h.tokens, s.sessions.issued, s.protocol.h.redeemed, s.protocol.exchanges, s.shown)
    && AllToldTruly(cfg, s.protocol.exchanges, s.shown, s.sessions.attempts)
  }

  /** Calls told of their proof were told before, and calls that are done stay done. */
  ghost predicate TellsNone(exchanges: map<nat, Exchange>, exchanges': map<nat, Exchange>)
  {
    && (forall q | q in exchanges' && exchanges'[q].Proved? :: q in exchanges && exchanges[q] == exchanges'[q])
    && DoneStays(exchanges, exchanges')
  }

  ghost predicate DoneStays(exchanges: map<nat, Exchange>, exchanges': map<nat, Exchange>)
  {
    forall q | q in exchanges && exchanges[q].Done? :: q in exchanges' && exchanges'[q].Done?
  }

  lemma StillToldTruly(cfg: Config, exchanges: map<nat, Exchange>, exchanges': map<nat, Exchange>, shown: map<nat, nat>, attempts: seq<Dpop.Attempt>)
    requires AllToldTruly(cfg, exchanges, shown, attempts) && TellsNone(exchanges, exchanges')
    ensures AllToldTruly(cfg, exchanges', shown, attempts)
  {
    forall q | q in exchanges' ensures ToldTruly(cfg, exchanges'[q], q, shown, attempts) {
      if exchanges'[q].Proved? {
        assert ToldTruly(cfg, exchanges[q], q, shown, attempts);
      }
    }
    hide SessionRuns.Mintable;
    hide SessionRuns.Confirm;
  }

  lemma StillMinted(tokens: seq<Minted>, issued: seq<SessionRuns.Issued>, redeemed: map<string, Redemption>, redeemed': map<string, Redemption>,
                    exchanges: map<nat, Exchange>, exchanges': map<nat, Exchange>, shown: map<nat, nat>)
    requires MintedByRedeemer(tokens, issued, redeemed, exchanges, shown) && DoneStays(exchanges, exchanges')
    requires forall c | c in redeemed :: c in redeemed' && redeemed'[c] == redeemed[c]
    ensures MintedByRedeemer(tokens, issued, redeemed', exchanges', shown)
  {
    forall i | 0 <= i < |tokens| ensures ByRedeemer(tokens[i], issued[i], redeemed', exchanges', shown) {
      assert ByRedeemer(tokens[i], issued[i], redeemed, exchanges, shown);
    }
  }

  lemma LoginTellsNone(cfg: Protocol.Config, s: Protocol.State, e: Protocol.Event)
    requires BeforeProof(e.step)
    ensures TellsNone(s.exchanges, Protocol.Next(cfg, s, e).exchanges) && Protocol.Next(cfg, s, e).h.tokens == s.h.tokens
  {
    hide Protocol.Next;
    StepFrame(cfg, s, e);
    match e.step
    case RedeemCode(_) => ExchangeTellsNone(cfg, s, e);
    case CheckPkce(_) => ExchangeTellsNone(cfg, s, e);
    case StartExchange(_, _) => ExchangeTellsNone(cfg, s, e);
    case _ =>
  }

  lemma ExchangeTellsNone(cfg: Protocol.Config, s: Protocol.State, e: Protocol.Event)
    requires e.step.RedeemCode? || e.step.CheckPkce? || e.step.StartExchange?
    ensures TellsNone(s.exchanges, Protocol.Next(cfg, s, e).exchanges)
  {
    hide TellsNone;
    hide Framed;
    hide AfterRedeemCode;
    hide AfterCheckPkce;
    hide AfterStartExchange;
    match e.step
    case RedeemCode(q) => RedeemTellsNone(s, q, e.now);
    case CheckPkce(q) => PkceTellsNone(s, q);
    case StartExchange(q, req) => StartTellsNone(s, q, req);
  }

  lemma SetOne(exchanges: map<nat, Exchange>, q: nat, x: Exchange)
    requires !x.Proved? && (q in exchanges ==> !exchanges[q].Done?)
    ensures TellsNone(exchanges, exchanges[q := x])
  {
  }

  lemma SetNone(exchanges: map<nat, Exchange>)
    ensures TellsNone(exchanges, exchanges)
  {
  }

  lemma RedeemTellsNone(s: Protocol.State, q: nat, now: Time)
    ensures TellsNone(s.exchanges, AfterRedeemCode(s, q, now).exchanges)
  {
    hide TellsNone;
    hide Framed;
    hide CodeStores.RedeemFrom;
    SetNone(s.exchanges);
    if q in s.exchanges && s.exchanges[q].Presented? {
      SetOne(s.exchanges, q, AfterRedeemCode(s, q, now).exchanges[q]);
    }
  }

  lemma PkceTellsNone(s: Protocol.State, q: nat)
    ensures TellsNone(s.exchanges, AfterCheckPkce(s, q).exchanges)
  {
    hide TellsNone;
    hide Framed;
    hide Authorize.VerifyPkce;
    SetNone(s.exchanges);
    if q in s.exchanges && s.exchanges[q].Redeemed? {
      SetOne(s.exchanges, q, AfterCheckPkce(s, q).exchanges[q]);
    }
  }

  lemma StartTellsNone(s: Protocol.State, q: nat, req: TokenRequest)
    ensures TellsNone(s.exchanges, AfterStartExchange(s, q, req).exchanges)
  {
    hide TellsNone;
    hide Framed;
    hide Complete;
    SetNone(s.exchanges);
    if q !in s.exchanges {
      SetOne(s.exchanges, q, AfterStartExchange(s, q, req).exchanges[q]);
    }
  }

  /** A redemption on record is never overwritten: codes are redeemed once. */
  lemma RedeemedStays(cfg: Protocol.Config, s: Protocol.State, e: Protocol.Event)
    requires TokenInv(cfg, s, e.now)
    ensures var redeemed := Protocol.Next(cfg, s, e).h.redeemed;
      forall c | c in s.h.redeemed :: c in redeemed && redeemed[c] == s.h.redeemed[c]
  {
    hide TokenInv;
    hide Protocol.Next;
    StepFrame(cfg, s, e);
    if e.step.RedeemCode? {
      RedeemsNewCodes(cfg, s, e);
    }
  }

  lemma RedeemsNewCodes(cfg: Protocol.Config, s: Protocol.State, e: Protocol.Event)
    requires TokenInv(cfg, s, e.now) && e.step.RedeemCode?
    ensures var redeemed := Protocol.Next(cfg, s, e).h.redeemed;
      forall c | c in s.h.redeemed :: c in redeemed && redeemed[c] == s.h.redeemed[c]
  {
    hide ExchangesOk;
    hide TokensOk;
    hide OneTokenPerCode;
    hide RedemptionsOk;
    hide Framed;
    hide CodeStores.Judged;
  }

  // ------------------------------------------------------- what a step keeps

  lemma LoginKeeps(cfg: Config, s: State, e: Event, t: Time)
    requires Inv(cfg, s, t) && t <= e.at && e.step.Login? && BeforeProof(e.step.step) && Protocol.Fresh(s.protocol, e.step.step)
    ensures Inv(cfg, Next(cfg, s, e), e.at)
  {
    hide SessionRuns.Inv;
    hide Protocol.Next;
    hide Protocol.Fresh;
    hide MintedByRedeemer;
    hide AllToldTruly;
    hide BeforeProof;
    hide LoginInv;
    hide ChallengeInv;
    hide TakenFirst;
    hide TokenInv;
    var event := ProtocolEvent(e.step.step, e);
    var p, p' := s.protocol, Protocol.Next(cfg.protocol, s.protocol, event);
    ProtocolRuns.InvLater(cfg.protocol, p, t, e.at);
    ProtocolRuns.InvStep(cfg.protocol, p, event, e.at);
    RedeemedStays(cfg.protocol, p, event);
    hide ProtocolRuns.Inv;
    SessionRuns.InvLater(cfg.Routes(), s.sessions, t, e.at);
    LoginTellsNone(cfg.protocol, p, event);
    StillToldTruly(cfg, p.exchanges, p'.exchanges, s.shown, s.sessions.attempts);
    StillMinted(p.h.tokens, s.sessions.issued, p.h.redeemed, p'.h.redeemed, p.exchanges, p'.exchanges, s.shown);
    hide DoneStays;
  }

  /** How an exchange fares that is told of its proof. */
  lemma CheckProofTells(cfg: Protocol.Config, p: Protocol.State, e: Protocol.Event, q: nat, outcome: Option<Dpop.Outcome>)
    requires e.step == CheckProof(q, outcome) && q in p.exchanges && p.exchanges[q].KeyChecked?
    ensures var x, p' := p.exchanges[q], Protocol.Next(cfg, p, e);
      && p'.exchanges == p.exchanges[q := if outcome.None? then Proved(x.req, x.grant, None)
                                          else if outcome.value.Accepted? then Proved(x.req, x.grant, Some(outcome.value.thumbprint))
                                          else Done]
      && p'.h.tokens == p.h.tokens && p'.h.redeemed == p.h.redeemed
  {
    assert Protocol.Next(cfg, p, e) == AfterCheckProof(p, q, outcome) by { hide AfterCheckProof; }
    hide Protocol.Next;
  }

  /** More attempts on the verifier leave what exchanges were told as it was. */
  lemma ToldTrulyLater(cfg: Config, exchanges: map<nat, Exchange>, shown: map<nat, nat>, attempts: seq<Dpop.Attempt>, attempts': seq<Dpop.Attempt>)
    requires AllToldTruly(cfg, exchanges, shown, attempts) && SessionRuns.Extends(cfg.max, attempts, attempts')
    ensures AllToldTruly(cfg, exchanges, shown, attempts')
  {
    hide Dpop.OutcomeOf;
    forall q | q in exchanges ensures ToldTruly(cfg, exchanges[q], q, shown, attempts') {
      assert ToldTruly(cfg, exchanges[q], q, shown, attempts);
    }
  }

  lemma TellOne(cfg: Config, exchanges: map<nat, Exchange>, q: nat, x: Exchange, shown: map<nat, nat>, attempts: seq<Dpop.Attempt>)
    requires AllToldTruly(cfg, exchanges, shown, attempts) && ToldTruly(cfg, x, q, shown, attempts)
    ensures AllToldTruly(cfg, exchanges[q := x], shown, attempts)
  {
    hide ToldTruly;
  }

  /** A proof newly shown concerns no other exchange, and none that is done. */
  lemma ShowOne(cfg: Config, exchanges: map<nat, Exchange>, q: nat, k: nat, shown: map<nat, nat>, attempts: seq<Dpop.Attempt>)
    requires AllToldTruly(cfg, exchanges, shown, attempts) && q in exchanges && exchanges[q].KeyChecked?
    ensures AllToldTruly(cfg, exchanges, shown[q := k], attempts)
  {
    hide SessionRuns.Mintable;
    hide SessionRuns.Confirm;
    forall r | r in exchanges ensures ToldTruly(cfg, exchanges[r], r, shown[q := k], attempts) {
      assert ToldTruly(cfg, exchanges[r], r, shown, attempts);
    }
  }

  lemma StillMintedShown(tokens: seq<Minted>, issued: seq<SessionRuns.Issued>, redeemed: map<string, Redemption>,
                         exchanges: map<nat, Exchange>, q: nat, x: Exchange, shown: map<nat, nat>, shown': map<nat, nat>)
    requires MintedByRedeemer(tokens, issued, redeemed, exchanges, shown) && q in exchanges && !exchanges[q].Done?
    requires forall r | r in shown && r != q :: r in shown' && shown'[r] == shown[r]
    ensures MintedByRedeemer(tokens, issued, redeemed, exchanges[q := x], shown')
  {
    forall i | 0 <= i < |tokens| ensures ByRedeemer(tokens[i], issued[i], redeemed, exchanges[q := x], shown') {
      assert ByRedeemer(tokens[i], issued[i], redeemed, exchanges, shown);
    }
  }

  /** Told without a judged proof: no proof, or none asked for. */
  lemma ToldOfNoneKeeps(cfg: Config, s: State, e: Event, t: Time, outcome: Option<Dpop.Outcome>)
    requires Inv(cfg, s, t) && t <= e.at && e.step.ShowProof? && (outcome.Some? ==> outcome.value.Refused?)
    requires e.step.q in s.protocol.exchanges && s.protocol.exchanges[e.step.q].KeyChecked?
    ensures Inv(cfg, Told(cfg, s, e, outcome), e.at)
  {
    hide ProtocolRuns.Inv;
    hide SessionRuns.Inv;
    hide Protocol.Next;
    hide MintedByRedeemer;
    hide AllToldTruly;
    hide ToldTruly;
    var q, p := e.step.q, s.protocol;
    var event := ProtocolEvent(CheckProof(q, outcome), e);
    CheckProofTells(cfg.protocol, p, event, q, outcome);
    ProtocolKeeps(cfg, s, event, t);
    SessionRuns.InvLater(cfg.Routes(), s.sessions, t, e.at);
    var x := Protocol.Next(cfg.protocol, p, event).exchanges[q];
    ToldNothing(cfg, x, q, s.shown, s.sessions.attempts);
    TellOne(cfg, p.exchanges, q, x, s.shown, s.sessions.attempts);
    StillMintedShown(p.h.tokens, s.sessions.issued, p.h.redeemed, p.exchanges, q, x, s.shown, s.shown);
  }

  lemma ToldNothing(cfg: Config, x: Exchange, q: nat, shown: map<nat, nat>, attempts: seq<Dpop.Attempt>)
    requires x.Proved? ==> x.confirm.None?
    ensures ToldTruly(cfg, x, q, shown, attempts)
  {
  }

  lemma ProtocolKeeps(cfg: Config, s: State, event: Protocol.Event, t: Time)
    requires ProtocolRuns.Inv(cfg.protocol, s.protocol, t) && t <= event.now && Protocol.Fresh(s.protocol, event.step)
    ensures ProtocolRuns.Inv(cfg.protocol, Protocol.Next(cfg.protocol, s.protocol, event), event.now)
  {
    hide ProtocolRuns.Inv;
    hide Protocol.Next;
    hide Protocol.Fresh;
    ProtocolRuns.InvLater(cfg.protocol, s.protocol, t, event.now);
    ProtocolRuns.InvStep(cfg.protocol, s.protocol, event, event.now);
  }

  /** Told of a proof that was judged. */
  lemma ToldOfProofKeeps(cfg: Config, s: State, e: Event, t: Time)
    requires Inv(cfg, s, t) && t <= e.at && e.read <= e.at && e.step.ShowProof? && cfg.dpop && e.step.proof.Some?
    requires e.step.q in s.protocol.exchanges && s.protocol.exchanges[e.step.q].KeyChecked?
    ensures Inv(cfg, AfterShowProof(cfg, s, e), e.at)
  {
    hide ProtocolRuns.Inv;
    hide SessionRuns.Inv;
    hide Protocol.Next;
    hide MintedByRedeemer;
    hide AllToldTruly;
    hide ToldTruly;
    hide SessionRuns.Next;
    hide SessionRuns.Extends;
    hide Dpop.OutcomeOf;
    var q, p := e.step.q, s.protocol;
    var session := SessionEvent(SessionRuns.Prove(e.step.proof.value), e);
    var sessions, k := SessionRuns.Next(cfg.Routes(), s.sessions, session), |s.sessions.attempts|;
    SessionRuns.InvStep(cfg.Routes(), s.sessions, session, t);
    SessionRuns.StepExtends(cfg.Routes(), s.sessions, session);
    ProvesOne(cfg, s.sessions, session);
    var outcome := Dpop.OutcomeOf(cfg.max, sessions.attempts, k);
    var event := ProtocolEvent(CheckProof(q, Some(outcome)), e);
    CheckProofTells(cfg.protocol, p, event, q, Some(outcome));
    ProtocolKeeps(cfg, s, event, t);
    ToldTrulyLater(cfg, p.exchanges, s.shown, s.sessions.attempts, sessions.attempts);
    ShowOne(cfg, p.exchanges, q, k, s.shown, sessions.attempts);
    var x := Protocol.Next(cfg.protocol, p, event).exchanges[q];
    ToldOfIt(cfg, x, q, k, s.shown[q := k], sessions.attempts);
    TellOne(cfg, p.exchanges, q, x, s.shown[q := k], sessions.attempts);
    StillMintedShown(p.h.tokens, s.sessions.issued, p.h.redeemed, p.exchanges, q, x, s.shown, s.shown[q := k]);
  }

  lemma ProvesOne(cfg: Config, s: SessionRuns.State, e: SessionRuns.Event)
    requires e.step.Prove?
    ensures var attempts := SessionRuns.Next(cfg.Routes(), s, e).attempts;
      |attempts| == |s.attempts| + 1 && attempts[|s.attempts|].target.token == ""
  {
    hide Dpop.AfterJudge;
  }

  lemma ToldOfIt(cfg: Config, x: Exchange, q: nat, k: nat, shown: map<nat, nat>, attempts: seq<Dpop.Attempt>)
    requires k < |attempts| && attempts[k].target.token == "" && q in shown && shown[q] == k
    requires x.Proved? ==> Dpop.OutcomeOf(cfg.max, attempts, k).Accepted? && x.confirm == Some(Dpop.OutcomeOf(cfg.max, attempts, k).thumbprint)
    ensures ToldTruly(cfg, x, q, shown, attempts)
  {
    hide Dpop.OutcomeOf;
  }

  lemma ShowProofKeeps(cfg: Config, s: State, e: Event, t: Time)
    requires Inv(cfg, s, t) && t <= e.at && e.read <= e.at && e.step.ShowProof?
    ensures Inv(cfg, Next(cfg, s, e), e.at)
  {
    hide Inv;
    hide Told;
    var q := e.step.q;
    if q !in s.protocol.exchanges || !s.protocol.exchanges[q].KeyChecked? {
      InvLater(cfg, s, t, e.at);
    } else if !cfg.dpop {
      ToldOfNoneKeeps(cfg, s, e, t, None);
    } else if e.step.proof.None? {
      ToldOfNoneKeeps(cfg, s, e, t, Some(Dpop.Refused(Dpop.Malformed)));
    } else {
      ToldOfProofKeeps(cfg, s, e, t);
    }
    hide SessionRuns.Next;
    hide Dpop.OutcomeOf;
  }

  lemma InvLater(cfg: Config, s: State, t: Time, later: Time)
    requires Inv(cfg, s, t) && t <= later
    ensures Inv(cfg, s, later)
  {
    hide ProtocolRuns.Inv;
    hide SessionRuns.Inv;
    hide MintedByRedeemer;
    hide AllToldTruly;
    ProtocolRuns.InvLater(cfg.protocol, s.protocol, t, later);
    SessionRuns.InvLater(cfg.Routes(), s.sessions, t, later);
  }

  /** What the protocol's last step leaves. */
  lemma MintEnds(cfg: Protocol.Config, p: Protocol.State, e: Protocol.Event, q: nat, jti: Option<string>)
    requires e.step == Protocol.MintToken(q, jti) && q in p.exchanges && p.exchanges[q].Proved?
    ensures var x, p' := p.exchanges[q], Protocol.Next(cfg, p, e);
      && p'.exchanges == p.exchanges[q := Done] && p'.h.redeemed == p.h.redeemed
      && p'.h.tokens == p.h.tokens
           + if jti.None? then []
             else [Minted(x.req.code, x.req.verifier, ClaimsFor(cfg, x.grant, x.confirm, e.now, jti.value), e.now)]
  {
    assert Protocol.Next(cfg, p, e) == AfterMintToken(cfg, p, q, jti, e.now) by { hide AfterMintToken; }
    hide Protocol.Next;
    hide ClaimsFor;
  }

  /** The session side mints the same claims. */
  lemma SameClaims(cfg: Config, s: SessionRuns.State, e: SessionRuns.Event, x: Exchange, q: nat, shown: map<nat, nat>)
    requires x.Proved? && ToldTruly(cfg, x, q, shown, s.attempts)
    requires e.step.Mint? && e.step.subject == x.grant.subjectId && e.step.tenant == x.grant.tenantId && e.step.scope == x.grant.scope
    requires e.step.attempt == if x.confirm.None? then None else Lookup(shown, q)
    ensures SessionRuns.Next(cfg.Routes(), s, e).issued
         == s.issued + if e.step.random.None? then []
                       else [SessionRuns.Issued(ClaimsFor(cfg.protocol, x.grant, x.confirm, e.at, e.step.random.value), e.step.attempt)]
    ensures SessionRuns.Next(cfg.Routes(), s, e).attempts == s.attempts
    ensures e.step.attempt.Some? ==> q in shown && shown[q] == e.step.attempt.value
  {
    hide Dpop.OutcomeOf;
    hide Tokens.Stamped;
  }

  lemma MintOne(tokens: seq<Minted>, issued: seq<SessionRuns.Issued>, redeemed: map<string, Redemption>, exchanges: map<nat, Exchange>,
                shown: map<nat, nat>, t: Minted, i: SessionRuns.Issued)
    requires MintedByRedeemer(tokens, issued, redeemed, exchanges, shown) && ByRedeemer(t, i, redeemed, exchanges, shown)
    ensures MintedByRedeemer(tokens + [t], issued + [i], redeemed, exchanges, shown)
  {
    hide ByRedeemer;
  }

  /** A call past redemption has its code on record as redeemed by it. */
  lemma OwnsItsCode(cfg: Protocol.Config, p: Protocol.State, t: Time, q: nat)
    requires ProtocolRuns.Inv(cfg, p, t) && q in p.exchanges && p.exchanges[q].Proved?
    ensures p.exchanges[q].req.code in p.h.redeemed && p.h.redeemed[p.exchanges[q].req.code].process == q
  {
    hide LoginInv;
    hide ChallengeInv;
    assert ExchangeOk(q, p.exchanges[q], p.h.issued, p.h.redeemed, p.h.tokens);
    hide ExchangesOk;
  }

  lemma MintKeeps(cfg: Config, s: State, e: Event, t: Time)
    requires Inv(cfg, s, t) && t <= e.at && e.read <= e.at && e.step.MintToken?
    requires e.step.q in s.protocol.exchanges && s.protocol.exchanges[e.step.q].Proved?
    ensures Inv(cfg, AfterMint(cfg, s, e), e.at)
  {
    hide ProtocolRuns.Inv;
    hide SessionRuns.Inv;
    hide Protocol.Next;
    hide MintedByRedeemer;
    hide AllToldTruly;
    hide ToldTruly;
    hide SessionRuns.Next;
    hide ClaimsFor;
    var q, jti, p := e.step.q, e.step.jti, s.protocol;
    var x := p.exchanges[q];
    var attempt := if x.confirm.None? then None else Lookup(s.shown, q);
    var event := ProtocolEvent(Protocol.MintToken(q, jti), e);
    var session := SessionEvent(SessionRuns.Mint(x.grant.subjectId, x.grant.tenantId, x.grant.scope, attempt, jti), e);
    MintEnds(cfg.protocol, p, event, q, jti);
    ToldOne(cfg, p.exchanges, q, s.shown, s.sessions.attempts);
    SameClaims(cfg, s.sessions, session, x, q, s.shown);
    OwnsItsCode(cfg.protocol, p, t, q);
    ProtocolKeeps(cfg, s, event, t);
    SessionRuns.InvStep(cfg.Routes(), s.sessions, session, t);
    ToldNothing(cfg, Done, q, s.shown, s.sessions.attempts);
    TellOne(cfg, p.exchanges, q, Done, s.shown, s.sessions.attempts);
    StillMintedShown(p.h.tokens, s.sessions.issued, p.h.redeemed, p.exchanges, q, Done, s.shown, s.shown);
    if jti.Some? {
      var claims := ClaimsFor(cfg.protocol, x.grant, x.confirm, e.at, jti.value);
      MintOne(p.h.tokens, s.sessions.issued, p.h.redeemed, p.exchanges[q := Done], s.shown,
        Minted(x.req.code, x.req.verifier, claims, e.at), SessionRuns.Issued(claims, attempt));
    } else {
      assert p.h.tokens + [] == p.h.tokens && s.sessions.issued + [] == s.sessions.issued;
    }
  }

  lemma ToldOne(cfg: Config, exchanges: map<nat, Exchange>, q: nat, shown: map<nat, nat>, attempts: seq<Dpop.Attempt>)
    requires AllToldTruly(cfg, exchanges, shown, attempts) && q in exchanges
    ensures ToldTruly(cfg, exchanges[q], q, shown, attempts)
  {
    hide ToldTruly;
  }

  lemma RouteKeeps(cfg: Config, s: State, session: SessionRuns.Event, t: Time)
    requires Inv(cfg, s, t) && t <= session.at && session.read <= session.at && !session.step.Mint?
    ensures Inv(cfg, s.(sessions := SessionRuns.Next(cfg.Routes(), s.sessions, session)), session.at)
  {
    hide ProtocolRuns.Inv;
    hide SessionRuns.Inv;
    hide SessionRuns.Next;
    hide SessionRuns.Extends;
    hide MintedByRedeemer;
    hide AllToldTruly;
    ProtocolRuns.InvLater(cfg.protocol, s.protocol, t, session.at);
    SessionRuns.InvStep(cfg.Routes(), s.sessions, session, t);
    SessionRuns.StepExtends(cfg.Routes(), s.sessions, session);
    ToldTrulyLater(cfg, s.protocol.exchanges, s.shown, s.sessions.attempts, SessionRuns.Next(cfg.Routes(), s.sessions, session).attempts);
  }

  lemma InvStep(cfg: Config, s: State, e: Event, t: Time)
    requires Inv(cfg, s, t) && t <= e.at && e.read <= e.at && (e.step.Login? ==> Protocol.Fresh(s.protocol, e.step.step))
    ensures Inv(cfg, Next(cfg, s, e), e.at)
  {
    hide Inv;
    hide SessionRuns.Next;
    hide Protocol.Next;
    hide Protocol.Fresh;
    InvLater(cfg, s, t, e.at);
    match e.step
    case Login(step) =>
      if BeforeProof(step) {
        LoginKeeps(cfg, s, e, t);
      }
    case ShowProof(_, _) => ShowProofKeeps(cfg, s, e, t);
    case MintToken(q, _) =>
      if q in s.protocol.exchanges && s.protocol.exchanges[q].Proved? {
        MintKeeps(cfg, s, e, t);
      }
    case Serve(r, dbFailed) => RouteKeeps(cfg, s, SessionEvent(SessionRuns.Request(r, dbFailed), e), t);
    case Revoke(op) => RouteKeeps(cfg, s, SessionEvent(SessionRuns.Revoke(op), e), t);
  }

  lemma {:induction false} InvHolds(cfg: Config, run: seq<Event>, n: nat, t: Time)
    requires ValidRun(cfg, run) && n <= |run| && (n > 0 ==> run[n - 1].at <= t)
    ensures Inv(cfg, StateAt(cfg, run, n), t)
  {
    hide Inv;
    hide Next;
    if n == 0 {
      NothingYet(cfg, t);
    } else {
      var e := run[n - 1];
      var before := if n > 1 then run[n - 2].at else e.at;
      InvHolds(cfg, run, n - 1, before);
      assert FreshAt(cfg, run, n - 1);
      InvStep(cfg, StateAt(cfg, run, n - 1), e, before);
      InvLater(cfg, StateAt(cfg, run, n), e.at, t);
    }
  }

  lemma NothingYet(cfg: Config, t: Time)
    ensures Inv(cfg, INITIAL, t)
  {
    ProtocolRuns.NothingYet(cfg.protocol, t);
    SessionRuns.NothingYet(cfg.Routes(), t);
    hide ProtocolRuns.Inv;
    hide SessionRuns.Inv;
  }

  // -------------------------------------------------- from the route to the login

  /** Pass p was made with token i of both records: whoever made it holds the key that was
      proved in the very exchange that redeemed the token's code, and the token goes back
      to one consumed request on the rails and one verified assertion. */
  ghost predicate EndToEnd(cfg: Config, s: State, p: SessionRuns.Pass, i: nat)
  {
    var h, sessions := s.protocol.h, s.sessions;
    && i < |h.tokens| == |sessions.issued| && p.attempt < |sessions.attempts|
    && sessions.issued[i].attempt.Some? && sessions.issued[i].attempt.value < |sessions.attempts|
    && SessionRuns.SameHolder(cfg.Routes(), sessions, p, sessions.issued[i])
    && h.tokens[i].claims == p.claims
    && ProtocolRuns.Recorded(h, h.tokens[i]) && ProtocolRuns.SameParties(cfg.protocol, s.protocol, h.tokens[i])
    && ProtocolRuns.InTime(h, h.tokens[i])
    && var q := h.redeemed[h.tokens[i].code].process;
       q in s.shown && s.shown[q] == sessions.issued[i].attempt.value
  }

  /** Every request that ever reaches a protected handler goes back, through the key that
      was proved when its token was exchanged, to one redeemed code, one consumed and
      validated authorization request, and one verified assertion over a challenge begun
      for that request. */
  lemma EveryPassGoesBackToALogin(cfg: Config, run: seq<Event>, n: nat, k: nat) returns (i: nat)
    requires ValidRun(cfg, run) && n <= |run| && k < |StateAt(cfg, run, n).sessions.passes|
    ensures EndToEnd(cfg, StateAt(cfg, run, n), StateAt(cfg, run, n).sessions.passes[k], i)
  {
    var t := if n == 0 then 0 else run[n - 1].at;
    InvHolds(cfg, run, n, t);
    i := PassGoesBack(cfg, StateAt(cfg, run, n), k, t);
    hide *;
  }

  lemma PassGoesBack(cfg: Config, s: State, k: nat, t: Time) returns (i: nat)
    requires Inv(cfg, s, t) && k < |s.sessions.passes|
    ensures EndToEnd(cfg, s, s.sessions.passes[k], i)
  {
    hide ProtocolRuns.Inv;
    hide SessionRuns.Inv;
    hide AllToldTruly;
    hide ProtocolRuns.Recorded;
    hide ProtocolRuns.SameParties;
    hide ProtocolRuns.InTime;
    i := SessionRuns.PassTraced(cfg.Routes(), s.sessions, k, t);
    IsHeld(cfg, s.sessions, s.sessions.passes[k], s.sessions.issued[i]);
    hide SessionRuns.SameHolder;
    assert ByRedeemer(s.protocol.h.tokens[i], s.sessions.issued[i], s.protocol.h.redeemed, s.protocol.exchanges, s.shown);
    ProtocolRuns.TokenIsTraced(cfg.protocol, s.protocol, i, t);
  }

  lemma IsHeld(cfg: Config, s: SessionRuns.State, p: SessionRuns.Pass, i: SessionRuns.Issued)
    requires p.attempt < |s.attempts| && (i.attempt.Some? ==> i.attempt.value < |s.attempts|) && SessionRuns.SameHolder(cfg.Routes(), s, p, i)
    ensures i.attempt.Some? && i.claims == p.claims
  {
  }

  /** Two passes with tokens of different logins have nothing behind them in common. */
  lemma DifferentTokensDifferentLogins(cfg: Config, run: seq<Event>, n: nat, i: nat, j: nat)
    requires ValidRun(cfg, run) && n <= |run| && i < j < |StateAt(cfg, run, n).protocol.h.tokens|
    ensures var h := StateAt(cfg, run, n).protocol.h;
      && ProtocolRuns.Recorded(h, h.tokens[i]) && ProtocolRuns.Recorded(h, h.tokens[j])
      && h.tokens[i].code != h.tokens[j].code && h.issued[h.tokens[i].code].rid != h.issued[h.tokens[j].code].rid
      && ProtocolRuns.JudgementOf(h, h.tokens[i]).challenge != ProtocolRuns.JudgementOf(h, h.tokens[j]).challenge
  {
    var t := if n == 0 then 0 else run[n - 1].at;
    InvHolds(cfg, run, n, t);
    var p := StateAt(cfg, run, n).protocol;
    ProtocolRuns.TokenIsTraced(cfg.protocol, p, i, t);
    ProtocolRuns.TokenIsTraced(cfg.protocol, p, j, t);
    ProtocolRuns.Unshared(cfg.protocol, p, i, j, t);
    hide *;
  }
}
