/** What every step of the authorization-code protocol keeps. */
module ProtocolInvariants {
  import opened Common
  import opened Authorize
  import opened LoginStores
  import opened Protocol
  import CodeStores
  import Dpop
  import Tokens
  import WebAuthn

  lemma AskGuardFrame(cfg: Config, s: State, p: nat, reachable: bool, signed: set<WebAuthn.Signed>)
    ensures Framed(s, AfterAskGuard(cfg, s, p, reachable, signed), AskGuard(p, reachable, signed))
  {
    hide WebAuthn.Verify;
  }

  lemma MintTokenFrame(cfg: Config, s: State, q: nat, jti: Option<string>, now: Time)
    ensures Framed(s, AfterMintToken(cfg, s, q, jti, now), MintToken(q, jti))
  {
    hide ClaimsFor;
  }

  /** No step touches more than its own records. */
  lemma StepFrame(cfg: Config, s: State, e: Event)
    ensures Framed(s, Next(cfg, s, e), e.step)
  {
    hide Framed;
    hide AfterRegister;
    hide AfterAddCredential;
    hide AfterAuthorize;
    hide AfterBegin;
    hide AfterStartFinish;
    hide AfterTakeChallenge;
    hide AfterGetCredential;
    hide AfterAskGuard;
    hide AfterUpdateCount;
    hide AfterTakePending;
    hide AfterIssueCode;
    hide AfterStartExchange;
    hide AfterRedeemCode;
    hide AfterCheckPkce;
    hide AfterCheckProof;
    hide AfterMintToken;
    match e.step
    case AskGuard(p, reachable, signed) => AskGuardFrame(cfg, s, p, reachable, signed);
    case MintToken(q, jti) => MintTokenFrame(cfg, s, q, jti, e.now);
    case _ =>
  }

  // ------------------------------------------- from request to code

  ghost predicate JudgedFor(judged: seq<Judgement>, j: nat, rid: string, cred: Credential)
  {
    j < |judged| && judged[j].rid == rid && judged[j].cred == cred && judged[j].verdict.Verified?
  }

  ghost predicate PutsOnRails(clients: Clients, puts: map<string, Put>, now: Time)
  {
    forall rid | rid in puts :: OnRails(clients, puts[rid].request) && puts[rid].at <= now
  }

  ghost predicate PendingWasPut(pending: map<string, Expiring<AuthzRequest>>, puts: map<string, Put>, consumed: map<string, Consumption>)
  {
    forall rid | rid in pending ::
      rid in puts && rid !in consumed && pending[rid] == Expiring(puts[rid].request, puts[rid].at + PENDING_TTL)
  }

  ghost predicate ConsumptionOk(puts: map<string, Put>, judged: seq<Judgement>, rid: string, c: Consumption, now: Time)
  {
    && rid in puts && c.request == puts[rid].request
    && puts[rid].at <= c.at <= puts[rid].at + PENDING_TTL && c.at <= now
    && JudgedFor(judged, c.judgement, rid, c.cred)
  }

  ghost predicate ConsumptionsOk(puts: map<string, Put>, judged: seq<Judgement>, consumed: map<string, Consumption>, now: Time)
  {
    forall rid | rid in consumed :: ConsumptionOk(puts, judged, rid, consumed[rid], now)
  }

  /** No code was issued for rid yet. */
  ghost predicate Unissued(issued: map<string, Issuance>, rid: string)
  {
    forall code | code in issued :: issued[code].rid != rid
  }

  ghost predicate FinishOk(p: nat, f: Finish, judged: seq<Judgement>, consumed: map<string, Consumption>, issued: map<string, Issuance>)
  {
    match f
    case Verified(rid, cred, count, j) => JudgedFor(judged, j, rid, cred) && judged[j].verdict == WebAuthn.Verified(count)
    case Counted(rid, cred, j) => JudgedFor(judged, j, rid, cred)
    case Consumed(rid, cred, j, req) =>
      && rid in consumed && consumed[rid].process == p && consumed[rid].cred == cred && consumed[rid].request == req
      && Unissued(issued, rid)
    case _ => true
  }

  ghost predicate FinishesOk(finishes: map<nat, Finish>, judged: seq<Judgement>, consumed: map<string, Consumption>, issued: map<string, Issuance>)
  {
    forall p | p in finishes :: FinishOk(p, finishes[p], judged, consumed, issued)
  }

  ghost predicate IssuanceOk(consumed: map<string, Consumption>, i: Issuance, now: Time)
  {
    && i.rid in consumed && i.grant == GrantFor(consumed[i.rid].request, consumed[i.rid].cred, i.at)
    && consumed[i.rid].at <= i.at <= now
  }

  ghost predicate IssuancesOk(consumed: map<string, Consumption>, issued: map<string, Issuance>, now: Time)
  {
    forall code | code in issued :: IssuanceOk(consumed, issued[code], now)
  }

  ghost predicate OneCodePerRequest(issued: map<string, Issuance>)
  {
    forall c, d | c in issued && d in issued && issued[c].rid == issued[d].rid :: c == d
  }

  ghost predicate LoginInv(s: State, now: Time)
  {
    && PutsOnRails(s.clients, s.h.puts, now)
    && PendingWasPut(s.pending, s.h.puts, s.h.consumed)
    && ConsumptionsOk(s.h.puts, s.h.judged, s.h.consumed, now)
    && FinishesOk(s.finishes, s.h.judged, s.h.consumed, s.h.issued)
    && IssuancesOk(s.h.consumed, s.h.issued, now)
    && OneCodePerRequest(s.h.issued)
  }

  lemma LoginAuthorize(s: State, params: Params, rid: string, now: Time)
    requires LoginInv(s, now) && rid !in s.h.puts
    ensures LoginInv(AfterAuthorize(s, params, rid, now), now)
  {
    hide FinishesOk;
    hide IssuancesOk;
    hide OneCodePerRequest;
    AcceptedOnRails(s.clients, params);
    hide Validate;
    if Validate(s.clients, params).Accepted? {
      var put := Put(Validate(s.clients, params).request, now);
      PutIsNew(s, rid, put, now);
    }
    hide PutsOnRails;
    hide PendingWasPut;
    hide ConsumptionsOk;
    hide AfterPut;
    hide OnRails;
  }

  lemma PutIsNew(s: State, rid: string, put: Put, now: Time)
    requires PutsOnRails(s.clients, s.h.puts, now) && PendingWasPut(s.pending, s.h.puts, s.h.consumed)
    requires ConsumptionsOk(s.h.puts, s.h.judged, s.h.consumed, now)
    requires rid !in s.h.puts && OnRails(s.clients, put.request) && put.at == now
    ensures PutsOnRails(s.clients, s.h.puts[rid := put], now)
    ensures PendingWasPut(AfterPut(s.pending, rid, put.request, PENDING_TTL, now), s.h.puts[rid := put], s.h.consumed)
    ensures ConsumptionsOk(s.h.puts[rid := put], s.h.judged, s.h.consumed, now)
  {
    hide OnRails;
    hide JudgedFor;
    assert rid in s.h.consumed ==> ConsumptionOk(s.h.puts, s.h.judged, rid, s.h.consumed[rid], now);
  }

  lemma LoginAskGuard(cfg: Config, s: State, p: nat, reachable: bool, signed: set<WebAuthn.Signed>, now: Time)
    requires LoginInv(s, now)
    ensures LoginInv(AfterAskGuard(cfg, s, p, reachable, signed), now)
  {
    hide WebAuthn.Verify;
    hide IssuancesOk;
    hide OneCodePerRequest;
    hide PutsOnRails;
    hide PendingWasPut;
    hide Unissued;
  }

  lemma LoginTakePending(s: State, p: nat, now: Time)
    requires LoginInv(s, now)
    ensures LoginInv(AfterTakePending(s, p, now), now)
  {
    if p in s.finishes && s.finishes[p].Counted? {
      var Counted(rid, cred, judgement) := s.finishes[p];
      assert FinishOk(p, s.finishes[p], s.h.judged, s.h.consumed, s.h.issued);
      PendingMinus(s, rid);
      if Taken(s.pending, rid, now).Some? {
        var c := Consumption(p, cred, judgement, s.pending[rid].value, now);
        PendingMinusConsumed(s, rid, c);
        ConsumeKeepsIssuances(s.h.consumed, s.h.issued, rid, c, now);
        ConsumeKeepsFinishes(s, rid, c);
        ConsumeKeepsConsumptions(s, rid, c, now);
        SetFinish(s.finishes, p, Consumed(rid, cred, judgement, c.request), s.h.judged, s.h.consumed[rid := c], s.h.issued);
      } else {
        SetFinish(s.finishes, p, Over, s.h.judged, s.h.consumed, s.h.issued);
      }
    }
    hide IssuancesOk;
    hide FinishesOk;
    hide ConsumptionsOk;
    hide PendingWasPut;
    hide PutsOnRails;
    hide OneCodePerRequest;
  }

  lemma SetFinish(finishes: map<nat, Finish>, p: nat, f: Finish, judged: seq<Judgement>, consumed: map<string, Consumption>, issued: map<string, Issuance>)
    requires FinishesOk(finishes, judged, consumed, issued) && FinishOk(p, f, judged, consumed, issued)
    ensures FinishesOk(finishes[p := f], judged, consumed, issued)
  {
    hide FinishOk;
  }

  lemma PendingMinus(s: State, rid: string)
    requires PendingWasPut(s.pending, s.h.puts, s.h.consumed)
    ensures PendingWasPut(s.pending - {rid}, s.h.puts, s.h.consumed)
    ensures rid in s.pending ==> rid !in s.h.consumed
  {
  }

  lemma PendingMinusConsumed(s: State, rid: string, c: Consumption)
    requires PendingWasPut(s.pending, s.h.puts, s.h.consumed)
    ensures PendingWasPut(s.pending - {rid}, s.h.puts, s.h.consumed[rid := c])
  {
  }

  lemma ConsumeKeepsConsumptions(s: State, rid: string, c: Consumption, now: Time)
    requires ConsumptionsOk(s.h.puts, s.h.judged, s.h.consumed, now) && ConsumptionOk(s.h.puts, s.h.judged, rid, c, now)
    ensures ConsumptionsOk(s.h.puts, s.h.judged, s.h.consumed[rid := c], now)
  {
    hide ConsumptionOk;
  }

  lemma ConsumeKeepsIssuances(consumed: map<string, Consumption>, issued: map<string, Issuance>, rid: string, c: Consumption, now: Time)
    requires IssuancesOk(consumed, issued, now) && rid !in consumed
    ensures IssuancesOk(consumed[rid := c], issued, now) && Unissued(issued, rid)
  {
  }

  lemma ConsumeKeepsFinishes(s: State, rid: string, c: Consumption)
    requires FinishesOk(s.finishes, s.h.judged, s.h.consumed, s.h.issued) && rid !in s.h.consumed
    ensures FinishesOk(s.finishes, s.h.judged, s.h.consumed[rid := c], s.h.issued)
  {
  }

  lemma LoginIssueCode(s: State, p: nat, random: Option<string>, now: Time)
    requires LoginInv(s, now) && (random.Some? ==> random.value !in s.h.issued)
    ensures LoginInv(AfterIssueCode(s, p, random, now), now)
  {
    hide PutsOnRails;
    hide PendingWasPut;
    hide CodeStores.MemoryNext;
    if p in s.finishes && s.finishes[p].Consumed? && random.Some? {
      var Consumed(rid, cred, judgement, req) := s.finishes[p];
      assert FinishOk(p, s.finishes[p], s.h.judged, s.h.consumed, s.h.issued);
      assert ConsumptionOk(s.h.puts, s.h.judged, rid, s.h.consumed[rid], now);
      IssueKeepsFinishes(s, p, random.value, Issuance(rid, GrantFor(req, cred, now), now));
      hide FinishesOk;
      hide ConsumptionsOk;
    }
  }

  lemma IssueKeepsFinishes(s: State, p: nat, code: string, i: Issuance)
    requires FinishesOk(s.finishes, s.h.judged, s.h.consumed, s.h.issued)
    requires i.rid in s.h.consumed && s.h.consumed[i.rid].process == p && code !in s.h.issued
    ensures FinishesOk(s.finishes[p := Over], s.h.judged, s.h.consumed, s.h.issued[code := i])
  {
    forall x | x in s.finishes && x != p ensures FinishOk(x, s.finishes[x], s.h.judged, s.h.consumed, s.h.issued[code := i]) {
      assert FinishOk(x, s.finishes[x], s.h.judged, s.h.consumed, s.h.issued);
    }
  }

  lemma LoginLater(s: State, now: Time, later: Time)
    requires LoginInv(s, now) && now <= later
    ensures LoginInv(s, later)
  {
  }

  /** Steps of the finish endpoint that only move one process on. */
  lemma LoginProcess(cfg: Config, s: State, e: Event, p: nat)
    requires LoginInv(s, e.now)
    requires e.step == TakeChallenge(p) || e.step == GetCredential(p) || e.step == UpdateCount(p)
          || (e.step.StartFinish? && e.step.p == p)
    ensures LoginInv(Next(cfg, s, e), e.now)
  {
    ProcessMoves(cfg, s, e, p);
    hide Next;
    var s' := Next(cfg, s, e);
    if p in s'.finishes {
      SetFinish(s.finishes, p, s'.finishes[p], s.h.judged, s.h.consumed, s.h.issued);
    }
    LoginFrame(s, s', e.now);
  }

  ghost predicate MovesOnly(s: State, finishes': map<nat, Finish>, p: nat)
  {
    if p in finishes'
    then finishes' == s.finishes[p := finishes'[p]] && FinishOk(p, finishes'[p], s.h.judged, s.h.consumed, s.h.issued)
    else finishes' == s.finishes
  }

  lemma TakeChallengeMoves(s: State, p: nat, now: Time)
    requires p in s.finishes ==> FinishOk(p, s.finishes[p], s.h.judged, s.h.consumed, s.h.issued)
    ensures MovesOnly(s, AfterTakeChallenge(s, p, now).finishes, p)
  {
    hide Unissued;
    hide Taken;
  }

  lemma GetCredentialMoves(s: State, p: nat)
    requires p in s.finishes ==> FinishOk(p, s.finishes[p], s.h.judged, s.h.consumed, s.h.issued)
    ensures MovesOnly(s, AfterGetCredential(s, p).finishes, p)
  {
    hide Unissued;
  }

  lemma UpdateCountMoves(s: State, p: nat)
    requires p in s.finishes ==> FinishOk(p, s.finishes[p], s.h.judged, s.h.consumed, s.h.issued)
    ensures MovesOnly(s, AfterUpdateCount(s, p).finishes, p)
  {
    hide JudgedFor;
    hide Unissued;
    UpdateCountFinishes(s, p);
    hide AfterUpdateCount;
  }

  lemma UpdateCountFinishes(s: State, p: nat)
    ensures AfterUpdateCount(s, p).finishes
         == if p in s.finishes && s.finishes[p].Verified?
            then s.finishes[p := Counted(s.finishes[p].rid, s.finishes[p].cred, s.finishes[p].judgement)] else s.finishes
  {
    hide WithSignCount;
    hide CountsOf;
    hide Framed;
    if p in s.finishes && s.finishes[p].Verified? {
      var Verified(rid, cred, count, judgement) := s.finishes[p];
      if count == 0 {
      } else {
      }
    }
  }

  lemma ProcessMoves(cfg: Config, s: State, e: Event, p: nat)
    requires FinishesOk(s.finishes, s.h.judged, s.h.consumed, s.h.issued)
    requires e.step == TakeChallenge(p) || e.step == GetCredential(p) || e.step == UpdateCount(p)
          || (e.step.StartFinish? && e.step.p == p)
    ensures SameLoginRecords(s, Next(cfg, s, e))
    ensures forall id | id in s.clients :: id in Next(cfg, s, e).clients && Next(cfg, s, e).clients[id] == s.clients[id]
    ensures MovesOnly(s, Next(cfg, s, e).finishes, p)
  {
    StepFrame(cfg, s, e);
    assert p in s.finishes ==> FinishOk(p, s.finishes[p], s.h.judged, s.h.consumed, s.h.issued);
    hide FinishesOk;
    hide Unissued;
    hide AfterTakeChallenge;
    hide AfterGetCredential;
    hide AfterUpdateCount;
    match e.step
    case TakeChallenge(_) => TakeChallengeMoves(s, p, e.now);
    case GetCredential(_) => GetCredentialMoves(s, p);
    case UpdateCount(_) => UpdateCountMoves(s, p);
    case StartFinish(_, _) =>
  }

  ghost predicate SameLoginRecords(s: State, s': State)
  {
    && s'.pending == s.pending && s'.h.puts == s.h.puts && s'.h.judged == s.h.judged
    && s'.h.consumed == s.h.consumed && s'.h.issued == s.h.issued
  }

  lemma LoginFrame(s: State, s': State, now: Time)
    requires LoginInv(s, now) && SameLoginRecords(s, s')
    requires FinishesOk(s'.finishes, s.h.judged, s.h.consumed, s.h.issued)
    requires forall id | id in s.clients :: id in s'.clients && s'.clients[id] == s.clients[id]
    ensures LoginInv(s', now)
  {
    hide IssuancesOk;
    hide OneCodePerRequest;
    hide PendingWasPut;
    hide ConsumptionsOk;
    hide FinishesOk;
  }

  lemma LoginElsewhere(cfg: Config, s: State, e: Event)
    requires LoginInv(s, e.now)
    requires e.step.Register? || e.step.AddCredential? || e.step.Begin? || e.step.StartExchange?
          || e.step.RedeemCode? || e.step.CheckPkce? || e.step.CheckProof? || e.step.MintToken?
    ensures LoginInv(Next(cfg, s, e), e.now)
  {
    ElsewhereLeaves(cfg, s, e);
    hide Next;
    LoginFrame(s, Next(cfg, s, e), e.now);
  }

  lemma ElsewhereLeaves(cfg: Config, s: State, e: Event)
    requires e.step.Register? || e.step.AddCredential? || e.step.Begin? || e.step.StartExchange?
          || e.step.RedeemCode? || e.step.CheckPkce? || e.step.CheckProof? || e.step.MintToken?
    ensures SameLoginRecords(s, Next(cfg, s, e)) && Next(cfg, s, e).finishes == s.finishes
    ensures forall id | id in s.clients :: id in Next(cfg, s, e).clients && Next(cfg, s, e).clients[id] == s.clients[id]
  {
    StepFrame(cfg, s, e);
    hide Next;
  }

  lemma LoginStep(cfg: Config, s: State, e: Event)
    requires LoginInv(s, e.now) && Fresh(s, e.step)
    ensures LoginInv(Next(cfg, s, e), e.now)
  {
    hide LoginInv;
    match e.step
    case AuthorizeRequest(params, rid) => LoginAuthorize(s, params, rid, e.now);
    case AskGuard(p, reachable, signed) => LoginAskGuard(cfg, s, p, reachable, signed, e.now);
    case TakePending(p) => LoginTakePending(s, p, e.now);
    case IssueCode(p, random) => LoginIssueCode(s, p, random, e.now);
    case StartFinish(p, _) => LoginProcess(cfg, s, e, p);
    case TakeChallenge(p) => LoginProcess(cfg, s, e, p);
    case GetCredential(p) => LoginProcess(cfg, s, e, p);
    case UpdateCount(p) => LoginProcess(cfg, s, e, p);
    case _ => LoginElsewhere(cfg, s, e);
  }

  // -------------------------------------------------- challenges and the Guard

  ghost predicate ChallengesOk(challenges: map<string, Expiring<Bytes>>, begun: map<Bytes, Begun>, taken: map<Bytes, Time>)
  {
    forall rid | rid in challenges ::
      var v := challenges[rid].value;
      && v in begun && begun[v].rid == rid && challenges[rid].expiresAt == begun[v].at + CHALLENGE_TTL
      && v !in taken
  }

  ghost predicate TakenOk(begun: map<Bytes, Begun>, taken: map<Bytes, Time>, now: Time)
  {
    && (forall v | v in begun :: begun[v].at <= now)
    && (forall v | v in taken :: v in begun && begun[v].at <= taken[v] <= begun[v].at + CHALLENGE_TTL && taken[v] <= now)
  }

  /** The Guard was asked about taken challenges only, for the request they were begun for. */
  ghost predicate JudgedOk(judged: seq<Judgement>, begun: map<Bytes, Begun>, taken: map<Bytes, Time>)
  {
    forall j | 0 <= j < |judged| ::
      judged[j].challenge in taken && judged[j].challenge in begun && begun[judged[j].challenge].rid == judged[j].rid
  }

  ghost predicate JudgedOnce(judged: seq<Judgement>)
  {
    forall i, j | 0 <= i < j < |judged| :: judged[i].challenge != judged[j].challenge
  }

  ghost predicate Unjudged(judged: seq<Judgement>, challenge: Bytes)
  {
    forall j | 0 <= j < |judged| :: judged[j].challenge != challenge
  }

  /** Between taking a challenge and asking the Guard, a call holds it. */
  ghost predicate Holds(f: Finish, challenge: Bytes)
  {
    (f.Challenged? || f.Identified?) && f.challenge == challenge
  }

  ghost predicate HolderOk(f: Finish, begun: map<Bytes, Begun>, taken: map<Bytes, Time>, judged: seq<Judgement>)
  {
    f.Challenged? || f.Identified? ==>
      f.challenge in taken && f.challenge in begun && begun[f.challenge].rid == f.req.rid && Unjudged(judged, f.challenge)
  }

  ghost predicate HoldersOk(finishes: map<nat, Finish>, begun: map<Bytes, Begun>, taken: map<Bytes, Time>, judged: seq<Judgement>)
  {
    forall p | p in finishes :: HolderOk(finishes[p], begun, taken, judged)
  }

  ghost predicate HoldersDistinct(finishes: map<nat, Finish>)
  {
    forall p, q, c | p in finishes && q in finishes && Holds(finishes[p], c) && Holds(finishes[q], c) :: p == q
  }

  ghost predicate ChallengeInv(s: State, now: Time)
  {
    && ChallengesOk(s.challenges, s.h.begun, s.h.taken)
    && TakenOk(s.h.begun, s.h.taken, now)
    && JudgedOk(s.h.judged, s.h.begun, s.h.taken) && JudgedOnce(s.h.judged)
    && HoldersOk(s.finishes, s.h.begun, s.h.taken, s.h.judged) && HoldersDistinct(s.finishes)
  }

  lemma ChallengeBegin(s: State, rid: string, challenge: Bytes, now: Time)
    requires ChallengeInv(s, now) && challenge !in s.h.begun
    ensures ChallengeInv(AfterBegin(s, rid, challenge, now), now)
  {
    hide JudgedOnce;
    hide HoldersDistinct;
    hide Unjudged;
  }

  lemma ChallengeTake(s: State, p: nat, now: Time)
    requires ChallengeInv(s, now)
    ensures ChallengeInv(AfterTakeChallenge(s, p, now), now)
  {
    if p in s.finishes && s.finishes[p].Asked? {
      var req := s.finishes[p].req;
      var c := Taken(s.challenges, req.rid, now);
      if c.Some? {
        var f, taken := Challenged(req, c.value), s.h.taken[c.value := now];
        UntakenIsUnheld(s, c.value, now);
        ChallengesMinus(s, req.rid, now);
        MoreTaken(s, c.value, now);
        SetHolder(s.finishes, p, f, s.h.begun, taken, s.h.judged);
      } else {
        DropHolder(s.finishes, p, Over, s.h.begun, s.h.taken, s.h.judged);
      }
    }
    hide JudgedOnce;
    hide HoldersDistinct;
    hide HoldersOk;
    hide JudgedOk;
    hide TakenOk;
  }

  lemma UntakenIsUnheld(s: State, c: Bytes, now: Time)
    requires ChallengeInv(s, now) && c !in s.h.taken
    ensures Unjudged(s.h.judged, c) && forall q | q in s.finishes :: !Holds(s.finishes[q], c)
  {
    forall q | q in s.finishes ensures !Holds(s.finishes[q], c) {
      assert HolderOk(s.finishes[q], s.h.begun, s.h.taken, s.h.judged);
    }
  }

  lemma ChallengesMinus(s: State, rid: string, now: Time)
    requires ChallengeInv(s, now) && rid in s.challenges
    ensures ChallengesOk(s.challenges - {rid}, s.h.begun, s.h.taken[s.challenges[rid].value := now])
  {
  }

  lemma MoreTaken(s: State, c: Bytes, now: Time)
    requires ChallengeInv(s, now) && c in s.h.begun && now <= s.h.begun[c].at + CHALLENGE_TTL
    ensures TakenOk(s.h.begun, s.h.taken[c := now], now)
    ensures JudgedOk(s.h.judged, s.h.begun, s.h.taken[c := now])
    ensures HoldersOk(s.finishes, s.h.begun, s.h.taken[c := now], s.h.judged)
  {
    hide Unjudged;
  }

  lemma SetHolder(finishes: map<nat, Finish>, p: nat, f: Finish, begun: map<Bytes, Begun>, taken: map<Bytes, Time>, judged: seq<Judgement>)
    requires HoldersOk(finishes, begun, taken, judged) && HoldersDistinct(finishes) && HolderOk(f, begun, taken, judged)
    requires forall q, c | q in finishes && q != p && Holds(f, c) :: !Holds(finishes[q], c)
    ensures HoldersOk(finishes[p := f], begun, taken, judged) && HoldersDistinct(finishes[p := f])
  {
    hide HolderOk;
    hide Holds;
  }

  lemma DropHolder(finishes: map<nat, Finish>, p: nat, f: Finish, begun: map<Bytes, Begun>, taken: map<Bytes, Time>, judged: seq<Judgement>)
    requires HoldersOk(finishes, begun, taken, judged) && HoldersDistinct(finishes)
    requires (f.Challenged? || f.Identified?) ==> p in finishes && Holds(finishes[p], f.challenge) && f.req == finishes[p].req
    ensures HoldersOk(finishes[p := f], begun, taken, judged) && HoldersDistinct(finishes[p := f])
  {
    assert p in finishes ==> HolderOk(finishes[p], begun, taken, judged);
    forall q, c | q in finishes && q != p && Holds(f, c) ensures !Holds(finishes[q], c) {
      assert Holds(finishes[p], c);
    }
    SetHolder(finishes, p, f, begun, taken, judged);
  }

  lemma ChallengeAskGuard(cfg: Config, s: State, p: nat, reachable: bool, signed: set<WebAuthn.Signed>, now: Time)
    requires ChallengeInv(s, now)
    ensures ChallengeInv(AfterAskGuard(cfg, s, p, reachable, signed), now)
  {
    hide WebAuthn.Verify;
    hide JudgedOnce;
    hide JudgedOk;
    hide HoldersDistinct;
    hide TakenOk;
    hide ChallengesOk;
    if p in s.finishes && s.finishes[p].Identified? {
      var s' := AfterAskGuard(cfg, s, p, reachable, signed);
      var f := s'.finishes[p];
      assert HolderOk(s.finishes[p], s.h.begun, s.h.taken, s.h.judged);
      hide HoldersOk;
      DropHolder(s.finishes, p, f, s.h.begun, s.h.taken, s.h.judged);
      if reachable {
        JudgeNext(s, p, s'.h.judged[|s.h.judged|]);
        RemainingHolders(s, p, s'.h.judged[|s.h.judged|], f);
      }
    }
  }

  lemma JudgeNext(s: State, p: nat, j: Judgement)
    requires p in s.finishes && Holds(s.finishes[p], j.challenge) && s.finishes[p].req.rid == j.rid
    requires HolderOk(s.finishes[p], s.h.begun, s.h.taken, s.h.judged)
    requires JudgedOk(s.h.judged, s.h.begun, s.h.taken) && JudgedOnce(s.h.judged)
    ensures JudgedOk(s.h.judged + [j], s.h.begun, s.h.taken) && JudgedOnce(s.h.judged + [j])
  {
  }

  lemma RemainingHolders(s: State, p: nat, j: Judgement, f: Finish)
    requires p in s.finishes && Holds(s.finishes[p], j.challenge) && !f.Challenged? && !f.Identified?
    requires HoldersOk(s.finishes, s.h.begun, s.h.taken, s.h.judged) && HoldersDistinct(s.finishes)
    ensures HoldersOk(s.finishes[p := f], s.h.begun, s.h.taken, s.h.judged + [j])
  {
    forall q | q in s.finishes && q != p ensures HolderOk(s.finishes[q], s.h.begun, s.h.taken, s.h.judged + [j]) {
      assert HolderOk(s.finishes[q], s.h.begun, s.h.taken, s.h.judged);
      assert !Holds(s.finishes[q], j.challenge);
    }
  }

  /** A step that gives no call a challenge it did not hold. */
  lemma ChallengeProcess(cfg: Config, s: State, e: Event, p: nat)
    requires ChallengeInv(s, e.now)
    requires e.step == GetCredential(p) || e.step == UpdateCount(p) || e.step == TakePending(p)
          || (e.step.StartFinish? && e.step.p == p) || (e.step.IssueCode? && e.step.p == p)
    ensures ChallengeInv(Next(cfg, s, e), e.now)
  {
    var s' := Next(cfg, s, e);
    ProcessDrops(cfg, s, e, p);
    hide Next;
    hide JudgedOnce;
    hide JudgedOk;
    hide TakenOk;
    hide ChallengesOk;
    if p in s'.finishes {
      DropHolder(s.finishes, p, s'.finishes[p], s.h.begun, s.h.taken, s.h.judged);
    }
    hide HoldersOk;
    hide HoldersDistinct;
  }

  ghost predicate SameChallengeRecords(s: State, s': State)
  {
    && s'.challenges == s.challenges && s'.h.begun == s.h.begun && s'.h.taken == s.h.taken
    && s'.h.judged == s.h.judged
  }

  lemma ProcessDrops(cfg: Config, s: State, e: Event, p: nat)
    requires e.step == GetCredential(p) || e.step == UpdateCount(p) || e.step == TakePending(p)
          || (e.step.StartFinish? && e.step.p == p) || (e.step.IssueCode? && e.step.p == p)
    ensures SameChallengeRecords(s, Next(cfg, s, e))
    ensures DropsOnly(s.finishes, Next(cfg, s, e).finishes, p)
  {
    StepFrame(cfg, s, e);
    hide AfterGetCredential;
    hide AfterUpdateCount;
    hide AfterTakePending;
    hide AfterIssueCode;
    match e.step
    case GetCredential(_) => GetCredentialDrops(s, p);
    case UpdateCount(_) => UpdateCountDrops(s, p);
    case TakePending(_) => TakePendingDrops(s, p, e.now);
    case IssueCode(_, random) => IssueCodeDrops(s, p, random, e.now);
    case StartFinish(_, _) =>
  }

  ghost predicate DropsOnly(finishes: map<nat, Finish>, finishes': map<nat, Finish>, p: nat)
  {
    if p !in finishes' then finishes' == finishes
    else
      && finishes' == finishes[p := finishes'[p]]
      && (finishes'[p].Challenged? || finishes'[p].Identified? ==>
            p in finishes && Holds(finishes[p], finishes'[p].challenge) && finishes'[p].req == finishes[p].req)
  }

  lemma GetCredentialDrops(s: State, p: nat)
    ensures DropsOnly(s.finishes, AfterGetCredential(s, p).finishes, p)
  {
  }

  lemma UpdateCountDrops(s: State, p: nat)
    ensures DropsOnly(s.finishes, AfterUpdateCount(s, p).finishes, p)
  {
    UpdateCountFinishes(s, p);
    hide AfterUpdateCount;
    hide Framed;
  }

  lemma TakePendingDrops(s: State, p: nat, now: Time)
    ensures DropsOnly(s.finishes, AfterTakePending(s, p, now).finishes, p)
  {
  }

  lemma IssueCodeDrops(s: State, p: nat, random: Option<string>, now: Time)
    ensures DropsOnly(s.finishes, AfterIssueCode(s, p, random, now).finishes, p)
  {
    hide CodeStores.MemoryNext;
  }

  lemma ChallengeElsewhere(cfg: Config, s: State, e: Event)
    requires ChallengeInv(s, e.now)
    requires e.step.Register? || e.step.AddCredential? || e.step.AuthorizeRequest? || e.step.StartExchange?
          || e.step.RedeemCode? || e.step.CheckPkce? || e.step.CheckProof? || e.step.MintToken?
    ensures ChallengeInv(Next(cfg, s, e), e.now)
  {
    ChallengeLeaves(cfg, s, e);
    hide Next;
    hide JudgedOnce;
    hide JudgedOk;
    hide TakenOk;
    hide ChallengesOk;
    hide HoldersOk;
    hide HoldersDistinct;
  }

  lemma ChallengeLeaves(cfg: Config, s: State, e: Event)
    requires e.step.Register? || e.step.AddCredential? || e.step.AuthorizeRequest? || e.step.StartExchange?
          || e.step.RedeemCode? || e.step.CheckPkce? || e.step.CheckProof? || e.step.MintToken?
    ensures SameChallengeRecords(s, Next(cfg, s, e)) && Next(cfg, s, e).finishes == s.finishes
  {
    StepFrame(cfg, s, e);
    hide Next;
  }

  lemma ChallengeStep(cfg: Config, s: State, e: Event)
    requires ChallengeInv(s, e.now) && Fresh(s, e.step)
    ensures ChallengeInv(Next(cfg, s, e), e.now)
  {
    hide ChallengeInv;
    match e.step
    case Begin(rid, challenge) => ChallengeBegin(s, rid, challenge, e.now);
    case TakeChallenge(p) => ChallengeTake(s, p, e.now);
    case AskGuard(p, reachable, signed) => ChallengeAskGuard(cfg, s, p, reachable, signed, e.now);
    case StartFinish(p, _) => ChallengeProcess(cfg, s, e, p);
    case GetCredential(p) => ChallengeProcess(cfg, s, e, p);
    case UpdateCount(p) => ChallengeProcess(cfg, s, e, p);
    case TakePending(p) => ChallengeProcess(cfg, s, e, p);
    case IssueCode(p, _) => ChallengeProcess(cfg, s, e, p);
    case _ => ChallengeElsewhere(cfg, s, e);
  }

  lemma ChallengeLater(s: State, now: Time, later: Time)
    requires ChallengeInv(s, now) && now <= later
    ensures ChallengeInv(s, later)
  {
    hide JudgedOnce;
    hide JudgedOk;
    hide ChallengesOk;
    hide HoldersOk;
    hide HoldersDistinct;
  }

  // ------------------------------------------- the judgement before the request

  /** A request is consumed only after the challenge of its judgement was taken. */
  ghost predicate TakenFirst(judged: seq<Judgement>, consumed: map<string, Consumption>, taken: map<Bytes, Time>)
  {
    forall rid | rid in consumed ::
      var j := consumed[rid].judgement;
      j < |judged| && judged[j].challenge in taken && taken[judged[j].challenge] <= consumed[rid].at
  }

  lemma OrderStep(cfg: Config, s: State, e: Event)
    requires LoginInv(s, e.now) && ChallengeInv(s, e.now) && TakenFirst(s.h.judged, s.h.consumed, s.h.taken)
    ensures var h := Next(cfg, s, e).h; TakenFirst(h.judged, h.consumed, h.taken)
  {
    hide Next;
    hide TakenFirst;
    hide LoginInv;
    hide ChallengeInv;
    StepFrame(cfg, s, e);
    match e.step
    case TakePending(p) => OrderAtTakePending(cfg, s, e, p);
    case TakeChallenge(p) => OrderAtTakeChallenge(cfg, s, e, p);
    case AskGuard(p, _, _) => OrderAtAskGuard(cfg, s, e);
    case _ =>
  }

  lemma OrderAtTakePending(cfg: Config, s: State, e: Event, p: nat)
    requires e.step == TakePending(p)
    requires LoginInv(s, e.now) && ChallengeInv(s, e.now) && TakenFirst(s.h.judged, s.h.consumed, s.h.taken)
    ensures TakenFirst(s.h.judged, Next(cfg, s, e).h.consumed, s.h.taken)
  {
    hide LoginInv;
    hide ChallengeInv;
    hide TakenFirst;
    hide AfterTakePending;
    IsTakePending(cfg, s, e, p);
    hide Next;
    OrderTakePending(s, p, e.now);
  }

  lemma IsTakePending(cfg: Config, s: State, e: Event, p: nat)
    requires e.step == TakePending(p)
    ensures Next(cfg, s, e) == AfterTakePending(s, p, e.now)
  {
    hide AfterTakePending;
  }

  lemma OrderAtTakeChallenge(cfg: Config, s: State, e: Event, p: nat)
    requires e.step == TakeChallenge(p)
    requires ChallengeInv(s, e.now) && TakenFirst(s.h.judged, s.h.consumed, s.h.taken)
    ensures TakenFirst(s.h.judged, s.h.consumed, Next(cfg, s, e).h.taken)
  {
    hide ChallengeInv;
    hide TakenFirst;
    hide AfterTakeChallenge;
    IsTakeChallenge(cfg, s, e, p);
    hide Next;
    OrderTakeChallenge(s, p, e.now);
  }

  lemma IsTakeChallenge(cfg: Config, s: State, e: Event, p: nat)
    requires e.step == TakeChallenge(p)
    ensures Next(cfg, s, e) == AfterTakeChallenge(s, p, e.now)
  {
    hide AfterTakeChallenge;
  }

  lemma OrderAtAskGuard(cfg: Config, s: State, e: Event)
    requires e.step.AskGuard? && TakenFirst(s.h.judged, s.h.consumed, s.h.taken)
    ensures TakenFirst(Next(cfg, s, e).h.judged, s.h.consumed, s.h.taken)
  {
    hide TakenFirst;
    hide AfterAskGuard;
    IsAskGuard(cfg, s, e);
    hide Next;
    OrderAskGuard(cfg, s, e.step.p, e.step.reachable, e.step.signed);
  }

  lemma IsAskGuard(cfg: Config, s: State, e: Event)
    requires e.step.AskGuard?
    ensures Next(cfg, s, e) == AfterAskGuard(cfg, s, e.step.p, e.step.reachable, e.step.signed)
  {
    hide AfterAskGuard;
  }

  lemma OrderTakePending(s: State, p: nat, now: Time)
    requires LoginInv(s, now) && ChallengeInv(s, now) && TakenFirst(s.h.judged, s.h.consumed, s.h.taken)
    ensures TakenFirst(s.h.judged, AfterTakePending(s, p, now).h.consumed, s.h.taken)
  {
    if p in s.finishes && s.finishes[p].Counted? {
      assert FinishOk(p, s.finishes[p], s.h.judged, s.h.consumed, s.h.issued);
      assert s.h.judged[s.finishes[p].judgement].challenge in s.h.taken;
    }
    hide Taken;
    hide LoginInv;
    hide HoldersOk;
    hide HoldersDistinct;
    hide ChallengesOk;
    hide JudgedOnce;
    hide Framed;
  }

  lemma OrderTakeChallenge(s: State, p: nat, now: Time)
    requires ChallengeInv(s, now) && TakenFirst(s.h.judged, s.h.consumed, s.h.taken)
    ensures TakenFirst(s.h.judged, s.h.consumed, AfterTakeChallenge(s, p, now).h.taken)
  {
    hide HoldersOk;
    hide HoldersDistinct;
    hide JudgedOnce;
    hide JudgedOk;
    hide TakenOk;
    hide Framed;
  }

  lemma OrderAskGuard(cfg: Config, s: State, p: nat, reachable: bool, signed: set<WebAuthn.Signed>)
    requires TakenFirst(s.h.judged, s.h.consumed, s.h.taken)
    ensures TakenFirst(AfterAskGuard(cfg, s, p, reachable, signed).h.judged, s.h.consumed, s.h.taken)
  {
    hide WebAuthn.Verify;
    hide Framed;
  }

  // ---------------------------------------------------- from code to token

  ghost predicate CodesOk(codes: map<string, CodeStores.Stored>, issued: map<string, Issuance>, redeemed: map<string, Redemption>)
  {
    forall c | c in codes ::
      c in issued && c !in redeemed && codes[c] == Expiring(issued[c].grant, issued[c].at + CodeStores.CODE_TTL)
  }

  ghost predicate RedemptionOk(issued: map<string, Issuance>, code: string, r: Redemption, now: Time)
  {
    && code in issued && r.clientId == issued[code].grant.clientId && r.redirectUri == issued[code].grant.redirectUri
    && issued[code].at <= r.at <= issued[code].at + CodeStores.CODE_TTL && r.at <= now
  }

  ghost predicate RedemptionsOk(issued: map<string, Issuance>, redeemed: map<string, Redemption>, now: Time)
  {
    forall code | code in redeemed :: RedemptionOk(issued, code, redeemed[code], now)
  }

  ghost predicate Unminted(tokens: seq<Minted>, code: string)
  {
    forall k | 0 <= k < |tokens| :: tokens[k].code != code
  }

  /** A call past redemption owns its code, and no token was minted from it yet. */
  ghost predicate ExchangeOk(q: nat, x: Exchange, issued: map<string, Issuance>, redeemed: map<string, Redemption>, tokens: seq<Minted>)
  {
    x.Redeemed? || x.KeyChecked? || x.Proved? ==>
      && x.req.code in redeemed && redeemed[x.req.code].process == q
      && x.req.code in issued && x.grant == issued[x.req.code].grant
      && Unminted(tokens, x.req.code)
      && (!x.Redeemed? ==> VerifyPkce(x.req.verifier, x.grant.codeChallenge).None?)
  }

  ghost predicate ExchangesOk(exchanges: map<nat, Exchange>, issued: map<string, Issuance>, redeemed: map<string, Redemption>, tokens: seq<Minted>)
  {
    forall q | q in exchanges :: ExchangeOk(q, exchanges[q], issued, redeemed, tokens)
  }

  ghost predicate MintedOk(cfg: Config, issued: map<string, Issuance>, redeemed: map<string, Redemption>, m: Minted, now: Time)
  {
    && m.code in issued && m.code in redeemed && redeemed[m.code].at <= m.at <= now
    && VerifyPkce(m.verifier, issued[m.code].grant.codeChallenge).None?
    && m.claims.issuer == cfg.issuer && m.claims.audience == cfg.audience
    && m.claims.subject == issued[m.code].grant.subjectId && m.claims.tenantId == issued[m.code].grant.tenantId
    && m.claims.scope == issued[m.code].grant.scope
    && m.claims.issuedAt == Unix(m.at) && m.claims.expiresAt == Unix(m.at + Tokens.ACCESS_TOKEN_TTL)
  }

  ghost predicate TokensOk(cfg: Config, issued: map<string, Issuance>, redeemed: map<string, Redemption>, tokens: seq<Minted>, now: Time)
  {
    forall k | 0 <= k < |tokens| :: MintedOk(cfg, issued, redeemed, tokens[k], now)
  }

  ghost predicate OneTokenPerCode(tokens: seq<Minted>)
  {
    forall i, j | 0 <= i < j < |tokens| :: tokens[i].code != tokens[j].code
  }

  ghost predicate TokenInv(cfg: Config, s: State, now: Time)
  {
    && CodesOk(s.codes, s.h.issued, s.h.redeemed)
    && (forall c | c in s.h.issued :: s.h.issued[c].at <= now)
    && RedemptionsOk(s.h.issued, s.h.redeemed, now)
    && ExchangesOk(s.exchanges, s.h.issued, s.h.redeemed, s.h.tokens)
    && TokensOk(cfg, s.h.issued, s.h.redeemed, s.h.tokens, now)
    && OneTokenPerCode(s.h.tokens)
  }

  lemma TokenIssueCode(cfg: Config, s: State, p: nat, random: Option<string>, now: Time)
    requires TokenInv(cfg, s, now) && (random.Some? ==> random.value !in s.h.issued)
    ensures TokenInv(cfg, AfterIssueCode(s, p, random, now), now)
  {
    if p in s.finishes && s.finishes[p].Consumed? && random.Some? {
      var Consumed(rid, cred, _, req) := s.finishes[p];
      var i := Issuance(rid, GrantFor(req, cred, now), now);
      MoreIssued(cfg, s, random.value, i, now);
      IssuedCodes(cfg, s, random.value, i, now);
    }
    hide CodesOk;
    hide RedemptionsOk;
    hide ExchangesOk;
    hide TokensOk;
    hide OneTokenPerCode;
    hide CodeStores.MemoryNext;
  }

  lemma IssuedCodes(cfg: Config, s: State, code: string, i: Issuance, now: Time)
    requires TokenInv(cfg, s, now) && code !in s.h.issued && i.at == now
    ensures CodesOk(CodeStores.MemoryNext(s.codes, CodeStores.Event(CodeStores.Issue(code, i.grant), now)), s.h.issued[code := i], s.h.redeemed)
  {
    hide ExchangesOk;
    hide TokensOk;
    assert code in s.h.redeemed ==> RedemptionOk(s.h.issued, code, s.h.redeemed[code], now);
  }

  lemma MoreIssued(cfg: Config, s: State, code: string, i: Issuance, now: Time)
    requires TokenInv(cfg, s, now) && code !in s.h.issued
    ensures RedemptionsOk(s.h.issued[code := i], s.h.redeemed, now)
    ensures ExchangesOk(s.exchanges, s.h.issued[code := i], s.h.redeemed, s.h.tokens)
    ensures TokensOk(cfg, s.h.issued[code := i], s.h.redeemed, s.h.tokens, now)
  {
    hide Unminted;
    hide VerifyPkce;
    hide CodesOk;
  }

  lemma TokenRedeemCode(cfg: Config, s: State, q: nat, now: Time)
    requires TokenInv(cfg, s, now)
    ensures TokenInv(cfg, AfterRedeemCode(s, q, now), now)
  {
    if q in s.exchanges && s.exchanges[q].Presented? {
      var req := s.exchanges[q].req;
      var r := CodeStores.RedeemFrom(s.codes, req.code, req.clientId, req.redirectUri, now);
      assert CodesOk(s.codes - {req.code}, s.h.issued, s.h.redeemed);
      if r.Granted? {
        var redemption := Redemption(q, req.clientId, req.redirectUri, now);
        MoreRedeemed(cfg, s, req, redemption, now);
        SetExchange(s.exchanges, q, Redeemed(req, r.grant), s.h.issued, s.h.redeemed[req.code := redemption], s.h.tokens);
      } else {
        SetExchange(s.exchanges, q, Done, s.h.issued, s.h.redeemed, s.h.tokens);
      }
    }
    hide CodesOk;
    hide RedemptionsOk;
    hide ExchangesOk;
    hide TokensOk;
    hide OneTokenPerCode;
  }

  lemma MoreRedeemed(cfg: Config, s: State, req: TokenRequest, r: Redemption, now: Time)
    requires TokenInv(cfg, s, now)
    requires CodeStores.RedeemFrom(s.codes, req.code, req.clientId, req.redirectUri, now).Granted?
    requires r.clientId == req.clientId && r.redirectUri == req.redirectUri && r.at == now
    ensures var redeemed := s.h.redeemed[req.code := r];
      && CodesOk(s.codes - {req.code}, s.h.issued, redeemed) && RedemptionsOk(s.h.issued, redeemed, now)
      && ExchangesOk(s.exchanges, s.h.issued, redeemed, s.h.tokens) && TokensOk(cfg, s.h.issued, redeemed, s.h.tokens, now)
      && Unminted(s.h.tokens, req.code) && req.code in s.h.issued
      && CodeStores.RedeemFrom(s.codes, req.code, req.clientId, req.redirectUri, now).grant == s.h.issued[req.code].grant
  {
    assert req.code in s.codes && req.code !in s.h.redeemed;
    forall k | 0 <= k < |s.h.tokens| ensures s.h.tokens[k].code != req.code {
      assert MintedOk(cfg, s.h.issued, s.h.redeemed, s.h.tokens[k], now);
    }
    MoreRedeemedExchanges(s, req.code, r);
    hide VerifyPkce;
    hide ExchangesOk;
  }

  lemma MoreRedeemedExchanges(s: State, code: string, r: Redemption)
    requires ExchangesOk(s.exchanges, s.h.issued, s.h.redeemed, s.h.tokens) && code !in s.h.redeemed
    ensures ExchangesOk(s.exchanges, s.h.issued, s.h.redeemed[code := r], s.h.tokens)
  {
    hide VerifyPkce;
    hide Unminted;
  }

  lemma SetExchange(exchanges: map<nat, Exchange>, q: nat, x: Exchange, issued: map<string, Issuance>, redeemed: map<string, Redemption>, tokens: seq<Minted>)
    requires ExchangesOk(exchanges, issued, redeemed, tokens) && ExchangeOk(q, x, issued, redeemed, tokens)
    ensures ExchangesOk(exchanges[q := x], issued, redeemed, tokens)
  {
    hide ExchangeOk;
  }

  lemma TokenMint(cfg: Config, s: State, q: nat, jti: Option<string>, now: Time)
    requires TokenInv(cfg, s, now)
    ensures TokenInv(cfg, AfterMintToken(cfg, s, q, jti, now), now)
  {
    if q in s.exchanges && s.exchanges[q].Proved? {
      var Proved(req, g, confirm) := s.exchanges[q];
      assert ExchangeOk(q, s.exchanges[q], s.h.issued, s.h.redeemed, s.h.tokens);
      SetExchange(s.exchanges, q, Done, s.h.issued, s.h.redeemed, s.h.tokens);
      if jti.Some? {
        var m := Minted(req.code, req.verifier, ClaimsFor(cfg, g, confirm, now, jti.value), now);
        assert RedemptionOk(s.h.issued, req.code, s.h.redeemed[req.code], now);
        assert MintedOk(cfg, s.h.issued, s.h.redeemed, m, now);
        MoreMinted(cfg, s, q, m, now);
      }
    }
    hide CodesOk;
    hide RedemptionsOk;
    hide ExchangesOk;
    hide TokensOk;
    hide OneTokenPerCode;
    hide ClaimsFor;
  }

  lemma MoreMinted(cfg: Config, s: State, q: nat, m: Minted, now: Time)
    requires TokensOk(cfg, s.h.issued, s.h.redeemed, s.h.tokens, now) && OneTokenPerCode(s.h.tokens)
    requires ExchangesOk(s.exchanges, s.h.issued, s.h.redeemed, s.h.tokens)
    requires MintedOk(cfg, s.h.issued, s.h.redeemed, m, now) && Unminted(s.h.tokens, m.code) && s.h.redeemed[m.code].process == q
    ensures TokensOk(cfg, s.h.issued, s.h.redeemed, s.h.tokens + [m], now) && OneTokenPerCode(s.h.tokens + [m])
    ensures ExchangesOk(s.exchanges[q := Done], s.h.issued, s.h.redeemed, s.h.tokens + [m])
  {
    hide VerifyPkce;
    forall x | x in s.exchanges && x != q
      ensures ExchangeOk(x, s.exchanges[x], s.h.issued, s.h.redeemed, s.h.tokens + [m])
    {
      assert ExchangeOk(x, s.exchanges[x], s.h.issued, s.h.redeemed, s.h.tokens);
    }
    hide MintedOk;
  }

  lemma TokenExchange(cfg: Config, s: State, e: Event, q: nat)
    requires TokenInv(cfg, s, e.now)
    requires e.step == CheckPkce(q) || (e.step.CheckProof? && e.step.q == q) || (e.step.StartExchange? && e.step.q == q)
    ensures TokenInv(cfg, Next(cfg, s, e), e.now)
  {
    var s' := Next(cfg, s, e);
    assert q in s.exchanges ==> ExchangeOk(q, s.exchanges[q], s.h.issued, s.h.redeemed, s.h.tokens);
    ExchangeMoves(cfg, s, e, q);
    if q in s'.exchanges {
      SetExchange(s.exchanges, q, s'.exchanges[q], s.h.issued, s.h.redeemed, s.h.tokens);
    }
    hide Next;
    hide CodesOk;
    hide RedemptionsOk;
    hide ExchangesOk;
    hide TokensOk;
    hide OneTokenPerCode;
  }

  ghost predicate SameTokenRecords(s: State, s': State)
  {
    s'.codes == s.codes && s'.h.issued == s.h.issued && s'.h.redeemed == s.h.redeemed && s'.h.tokens == s.h.tokens
  }

  ghost predicate MovesExchange(s: State, exchanges': map<nat, Exchange>, q: nat)
  {
    if q in exchanges'
    then exchanges' == s.exchanges[q := exchanges'[q]] && ExchangeOk(q, exchanges'[q], s.h.issued, s.h.redeemed, s.h.tokens)
    else exchanges' == s.exchanges
  }

  lemma PkceMoves(s: State, q: nat)
    requires q in s.exchanges ==> ExchangeOk(q, s.exchanges[q], s.h.issued, s.h.redeemed, s.h.tokens)
    ensures MovesExchange(s, AfterCheckPkce(s, q).exchanges, q)
  {
    hide Unminted;
    hide VerifyPkce;
    hide Framed;
  }

  lemma ProofMoves(s: State, q: nat, proof: Option<Dpop.Outcome>)
    requires q in s.exchanges ==> ExchangeOk(q, s.exchanges[q], s.h.issued, s.h.redeemed, s.h.tokens)
    ensures MovesExchange(s, AfterCheckProof(s, q, proof).exchanges, q)
  {
    hide Unminted;
    hide VerifyPkce;
    hide Framed;
    hide ExchangeOk;
    if q in s.exchanges && s.exchanges[q].KeyChecked? {
      ProofOk(s, q, AfterCheckProof(s, q, proof).exchanges[q]);
    }
  }

  lemma ProofOk(s: State, q: nat, x: Exchange)
    requires q in s.exchanges && s.exchanges[q].KeyChecked? && ExchangeOk(q, s.exchanges[q], s.h.issued, s.h.redeemed, s.h.tokens)
    requires x.Done? || (x.Proved? && x.req == s.exchanges[q].req && x.grant == s.exchanges[q].grant)
    ensures ExchangeOk(q, x, s.h.issued, s.h.redeemed, s.h.tokens)
  {
    hide Unminted;
    hide VerifyPkce;
  }

  lemma ExchangeMoves(cfg: Config, s: State, e: Event, q: nat)
    requires q in s.exchanges ==> ExchangeOk(q, s.exchanges[q], s.h.issued, s.h.redeemed, s.h.tokens)
    requires e.step == CheckPkce(q) || (e.step.CheckProof? && e.step.q == q) || (e.step.StartExchange? && e.step.q == q)
    ensures SameTokenRecords(s, Next(cfg, s, e)) && MovesExchange(s, Next(cfg, s, e).exchanges, q)
  {
    hide Unminted;
    hide VerifyPkce;
    hide Complete;
    StepFrame(cfg, s, e);
    match e.step {
      case CheckPkce(_) => PkceMoves(s, q);
      case CheckProof(_, proof) => ProofMoves(s, q, proof);
      case StartExchange(_, req) =>
    }
    hide AfterCheckPkce;
    hide AfterCheckProof;
  }

  lemma TokenElsewhere(cfg: Config, s: State, e: Event)
    requires TokenInv(cfg, s, e.now)
    requires !e.step.IssueCode? && !e.step.RedeemCode? && !e.step.MintToken?
          && !e.step.CheckPkce? && !e.step.CheckProof? && !e.step.StartExchange?
    ensures TokenInv(cfg, Next(cfg, s, e), e.now)
  {
    TokenLeaves(cfg, s, e);
    hide Next;
    hide CodesOk;
    hide RedemptionsOk;
    hide ExchangesOk;
    hide TokensOk;
    hide OneTokenPerCode;
  }

  lemma TokenLeaves(cfg: Config, s: State, e: Event)
    requires !e.step.IssueCode? && !e.step.RedeemCode? && !e.step.MintToken?
          && !e.step.CheckPkce? && !e.step.CheckProof? && !e.step.StartExchange?
    ensures SameTokenRecords(s, Next(cfg, s, e)) && Next(cfg, s, e).exchanges == s.exchanges
  {
    StepFrame(cfg, s, e);
    hide Next;
  }

  lemma TokenStep(cfg: Config, s: State, e: Event)
    requires TokenInv(cfg, s, e.now) && Fresh(s, e.step)
    ensures TokenInv(cfg, Next(cfg, s, e), e.now)
  {
    hide TokenInv;
    match e.step
    case IssueCode(p, random) => TokenIssueCode(cfg, s, p, random, e.now);
    case RedeemCode(q) => TokenRedeemCode(cfg, s, q, e.now);
    case MintToken(q, jti) => TokenMint(cfg, s, q, jti, e.now);
    case StartExchange(q, _) => TokenExchange(cfg, s, e, q);
    case CheckPkce(q) => TokenExchange(cfg, s, e, q);
    case CheckProof(q, _) => TokenExchange(cfg, s, e, q);
    case _ => TokenElsewhere(cfg, s, e);
  }

  lemma TokenLater(cfg: Config, s: State, now: Time, later: Time)
    requires TokenInv(cfg, s, now) && now <= later
    ensures TokenInv(cfg, s, later)
  {
    hide VerifyPkce;
    hide CodesOk;
    hide ExchangesOk;
    hide OneTokenPerCode;
  }
}
