/** Why clone detection needs calls that do not overlap: a run in which it fails. */
module CloneExample {
  import opened Common
  import opened LoginStores
  import opened Protocol
  import opened ProtocolInvariants
  import opened LoginRuns
  import WebAuthn

  const KEY := "key"
  const CRED: Credential := Credential(KEY, "tenant", "subject", [], true, 5)

  function Cfg(rp: Bytes): Config
  {
    Config("issuer", "audience", rp, "origin")
  }

  function Client(challenge: Bytes): WebAuthn.ClientData
  {
    WebAuthn.ClientData(Some("webauthn.get"), Some(Some(challenge)), Some("origin"))
  }

  /** A login with counter n over the challenge. */
  function Login(rp: Bytes, rid: string, challenge: Bytes, n: nat): (req: FinishRequest)
    ensures req.rid == rid && req.credentialId == KEY && req.decodes
  {
    FinishRequest(rid, KEY, WebAuthn.Assertion(WebAuthn.AuthenticatorData(rp, 1, n, []), Some(Client(challenge)), true), true)
  }

  function SignedFor(rp: Bytes, challenge: Bytes, n: nat): set<WebAuthn.Signed>
  {
    {WebAuthn.Signed([], WebAuthn.AuthenticatorData(rp, 1, n, []), Client(challenge))}
  }

  /** Both calls read the counter 5 before either writes its own back. */
  function OverlappingRun(rp: Bytes, v: Bytes, w: Bytes): (run: seq<Event>)
    ensures |run| == 13
  {
    [Event(AddCredential(CRED), 0),
     Event(Begin("a", v), 0),
     Event(Begin("b", w), 0),
     Event(StartFinish(0, Login(rp, "a", v, 7)), 0),
     Event(StartFinish(1, Login(rp, "b", w, 6)), 0),
     Event(TakeChallenge(0), 0),
     Event(TakeChallenge(1), 0),
     Event(GetCredential(0), 0),
     Event(GetCredential(1), 0),
     Event(AskGuard(0, true, SignedFor(rp, v, 7)), 0),
     Event(AskGuard(1, true, SignedFor(rp, w, 6)), 0),
     Event(UpdateCount(0), 0),
     Event(UpdateCount(1), 0)]
  }

  /** Where calls p and q stand, the stored counter, and the accepted ones. */
  ghost predicate Stand(s: State, p: nat, f: Finish, q: nat, g: Finish, stored: nat, log: seq<nat>)
  {
    && p != q && p in s.finishes && q in s.finishes && s.finishes[p] == f && s.finishes[q] == g
    && KEY in s.creds && s.creds[KEY] == CRED.(signCount := stored) && CountsOf(s.h, KEY) == log
  }

  ghost predicate Offers(s: State, rid: string, v: Bytes)
  {
    rid in s.challenges && s.challenges[rid] == Expiring(v, CHALLENGE_TTL)
  }

  lemma Unfold(cfg: Config, run: seq<Event>, k: nat)
    requires k < |run|
    ensures StateAt(cfg, run, k + 1) == Next(cfg, StateAt(cfg, run, k), run[k])
  {
  }

  lemma ChallengesOffered(rp: Bytes, v: Bytes, w: Bytes)
    ensures var s := StateAt(Cfg(rp), OverlappingRun(rp, v, w), 3);
      && s.finishes == map[] && s.creds == map[KEY := CRED] && s.h.counts == map[]
      && Offers(s, "a", v) && Offers(s, "b", w)
    ensures StateAt(Cfg(rp), OverlappingRun(rp, v, w), 1).h.begun == map[]
    ensures StateAt(Cfg(rp), OverlappingRun(rp, v, w), 2).h.begun.Keys == {v}
  {
    hide Framed;
    hide Login;
    hide SignedFor;
    var run, cfg := OverlappingRun(rp, v, w), Cfg(rp);
    Unfold(cfg, run, 0);
    Unfold(cfg, run, 1);
    Unfold(cfg, run, 2);
    assert StateAt(cfg, run, 0) == INITIAL;
    hide StateAt;
    assert Offers(StateAt(cfg, run, 2), "a", v);
  }

  lemma StartBoth(s: State, a: FinishRequest, b: FinishRequest)
    requires s.finishes == map[] && s.creds == map[KEY := CRED] && s.h.counts == map[]
    ensures var s' := AfterStartFinish(AfterStartFinish(s, 0, a), 1, b);
      s'.challenges == s.challenges && Stand(s', 0, Asked(a), 1, Asked(b), 5, [])
  {
  }

  /** After the first five steps two calls stand at the door. */
  lemma BothAsked(rp: Bytes, v: Bytes, w: Bytes)
    ensures var s := StateAt(Cfg(rp), OverlappingRun(rp, v, w), 5);
      Stand(s, 0, Asked(Login(rp, "a", v, 7)), 1, Asked(Login(rp, "b", w, 6)), 5, []) && Offers(s, "a", v) && Offers(s, "b", w)
  {
    hide Login;
    hide SignedFor;
    hide AfterStartFinish;
    hide Framed;
    var run, cfg := OverlappingRun(rp, v, w), Cfg(rp);
    ChallengesOffered(rp, v, w);
    Unfold(cfg, run, 3);
    Unfold(cfg, run, 4);
    StartBoth(StateAt(cfg, run, 3), Login(rp, "a", v, 7), Login(rp, "b", w, 6));
    hide StateAt;
    hide Stand;
  }

  lemma TakeOne(s: State, p: nat, q: nat, req: FinishRequest, g: Finish, v: Bytes, rid: string, w: Bytes)
    requires Stand(s, p, Asked(req), q, g, 5, []) && Offers(s, req.rid, v) && req.rid != rid
    ensures Stand(AfterTakeChallenge(s, p, 0), p, Challenged(req, v), q, g, 5, [])
    ensures Offers(s, rid, w) ==> Offers(AfterTakeChallenge(s, p, 0), rid, w)
  {
  }

  lemma GetOne(s: State, p: nat, q: nat, req: FinishRequest, v: Bytes, g: Finish)
    requires Stand(s, p, Challenged(req, v), q, g, 5, []) && req.credentialId == KEY && req.decodes
    ensures Stand(AfterGetCredential(s, p), p, Identified(req, v, CRED), q, g, 5, [])
  {
  }

  /** The authenticator's honest answer is verified: n is ahead of the 5 it read. */
  lemma AskOne(rp: Bytes, s: State, p: nat, q: nat, rid: string, v: Bytes, n: nat, g: Finish)
    requires |rp| == 32 && 5 < n < 100 && Stand(s, p, Identified(Login(rp, rid, v, n), v, CRED), q, g, 5, [])
    ensures Stand(AfterAskGuard(Cfg(rp), s, p, true, SignedFor(rp, v, n)), p, Verified(rid, CRED, n, |s.h.judged|), q, g, 5, [])
  {
    WebAuthn.HonestLogin(SignedFor(rp, v, n), WebAuthn.Expectations(rp, "origin", v, 5), [], 1, n, []);
    hide WebAuthn.Verify;
    hide WebAuthn.AuthenticatorData;
  }

  lemma CountOne(s: State, p: nat, q: nat, rid: string, n: nat, j: nat, g: Finish, stored: nat, log: seq<nat>)
    requires Stand(s, p, Verified(rid, CRED, n, j), q, g, stored, log) && n != 0
    ensures Stand(AfterUpdateCount(s, p), p, Counted(rid, CRED, j), q, g, n, log + [n])
  {
  }

  /** The last eight steps, one by one. */
  lemma TakesAndGets(rp: Bytes, v: Bytes, w: Bytes)
    ensures var cfg, run := Cfg(rp), OverlappingRun(rp, v, w);
      && StateAt(cfg, run, 6) == AfterTakeChallenge(StateAt(cfg, run, 5), 0, 0)
      && StateAt(cfg, run, 7) == AfterTakeChallenge(StateAt(cfg, run, 6), 1, 0)
      && StateAt(cfg, run, 8) == AfterGetCredential(StateAt(cfg, run, 7), 0)
      && StateAt(cfg, run, 9) == AfterGetCredential(StateAt(cfg, run, 8), 1)
  {
    hide AfterTakeChallenge;
    hide AfterGetCredential;
    hide Framed;
    hide Login;
    hide SignedFor;
    var run, cfg := OverlappingRun(rp, v, w), Cfg(rp);
    Unfold(cfg, run, 5);
    Unfold(cfg, run, 6);
    Unfold(cfg, run, 7);
    Unfold(cfg, run, 8);
    hide StateAt;
  }

  lemma AsksAndUpdates(rp: Bytes, v: Bytes, w: Bytes)
    ensures var cfg, run := Cfg(rp), OverlappingRun(rp, v, w);
      && StateAt(cfg, run, 10) == AfterAskGuard(cfg, StateAt(cfg, run, 9), 0, true, SignedFor(rp, v, 7))
      && StateAt(cfg, run, 11) == AfterAskGuard(cfg, StateAt(cfg, run, 10), 1, true, SignedFor(rp, w, 6))
      && StateAt(cfg, run, 12) == AfterUpdateCount(StateAt(cfg, run, 11), 0)
      && StateAt(cfg, run, 13) == AfterUpdateCount(StateAt(cfg, run, 12), 1)
  {
    hide AfterAskGuard;
    hide AfterUpdateCount;
    hide Framed;
    hide Login;
    hide SignedFor;
    var run, cfg := OverlappingRun(rp, v, w), Cfg(rp);
    Unfold(cfg, run, 9);
    Unfold(cfg, run, 10);
    Unfold(cfg, run, 11);
    Unfold(cfg, run, 12);
    hide StateAt;
  }

  /** Both hold their challenge and the credential as it was. */
  lemma BothIdentified(rp: Bytes, v: Bytes, w: Bytes)
    ensures Stand(StateAt(Cfg(rp), OverlappingRun(rp, v, w), 9),
      0, Identified(Login(rp, "a", v, 7), v, CRED), 1, Identified(Login(rp, "b", w, 6), w, CRED), 5, [])
  {
    var run, cfg, a, b := OverlappingRun(rp, v, w), Cfg(rp), Login(rp, "a", v, 7), Login(rp, "b", w, 6);
    hide Login;
    hide Next;
    hide StateAt;
    hide OverlappingRun;
    hide AfterTakeChallenge;
    hide AfterGetCredential;
    hide Framed;
    hide Offers;
    assert "a" != "b";
    BothAsked(rp, v, w);
    TakesAndGets(rp, v, w);
    TakeOne(StateAt(cfg, run, 5), 0, 1, a, Asked(b), v, "b", w);
    Swap(StateAt(cfg, run, 6), 0, Challenged(a, v), 1, Asked(b), 5, []);
    TakeOne(StateAt(cfg, run, 6), 1, 0, b, Challenged(a, v), w, "a", v);
    Swap(StateAt(cfg, run, 7), 1, Challenged(b, w), 0, Challenged(a, v), 5, []);
    hide Stand;
    GetOne(StateAt(cfg, run, 7), 0, 1, a, v, Challenged(b, w));
    Swap(StateAt(cfg, run, 8), 0, Identified(a, v, CRED), 1, Challenged(b, w), 5, []);
    GetOne(StateAt(cfg, run, 8), 1, 0, b, w, Identified(a, v, CRED));
    Swap(StateAt(cfg, run, 9), 1, Identified(b, w, CRED), 0, Identified(a, v, CRED), 5, []);
  }

  lemma Swap(s: State, p: nat, f: Finish, q: nat, g: Finish, stored: nat, log: seq<nat>)
    requires Stand(s, p, f, q, g, stored, log)
    ensures Stand(s, q, g, p, f, stored, log)
  {
  }

  /** The run is one the protocol can take, and registers the credential once. */
  lemma OverlappingRunIsValid(rp: Bytes, v: Bytes, w: Bytes)
    requires v != w
    ensures ValidRun(Cfg(rp), OverlappingRun(rp, v, w)) && AddedOnce(OverlappingRun(rp, v, w), 0, KEY)
  {
    hide Login;
    hide SignedFor;
    hide StateAt;
    ChallengesOffered(rp, v, w);
    var run, cfg := OverlappingRun(rp, v, w), Cfg(rp);
    forall n | 0 <= n < |run| ensures FreshAt(cfg, run, n) {
      if n == 1 {
        assert FreshAt(cfg, run, 1);
      } else if n == 2 {
        assert FreshAt(cfg, run, 2);
      } else {
        assert !run[n].step.AuthorizeRequest? && !run[n].step.Begin? && !run[n].step.IssueCode?;
      }
    }
  }

  lemma Falls(h: History)
    requires CountsOf(h, KEY) == [7, 6]
    ensures !Increasing(Log(h, KEY, 5))
  {
    assert Log(h, KEY, 5)[1] == 7 && Log(h, KEY, 5)[2] == 6;
  }

  /** The smaller counter is written last: the log falls from 7 to 6, and a clone
      that stands at 7 goes unnoticed. */
  lemma OverlapLosesTheCount(rp: Bytes, v: Bytes, w: Bytes)
    requires |rp| == 32
    ensures var s := StateAt(Cfg(rp), OverlappingRun(rp, v, w), 13);
      CountsOf(s.h, KEY) == [7, 6] && KEY in s.creds && s.creds[KEY].signCount == 6 && !Increasing(Log(s.h, KEY, 5))
  {
    hide *;
    var run, cfg := OverlappingRun(rp, v, w), Cfg(rp);
    var a, b := Login(rp, "a", v, 7), Login(rp, "b", w, 6);
    var s9, s10, s11, s12 := StateAt(cfg, run, 9), StateAt(cfg, run, 10), StateAt(cfg, run, 11), StateAt(cfg, run, 12);
    var f, g := Verified("a", CRED, 7, |s9.h.judged|), Verified("b", CRED, 6, |s10.h.judged|);
    BothIdentified(rp, v, w);
    AsksAndUpdates(rp, v, w);
    AskOne(rp, s9, 0, 1, "a", v, 7, Identified(b, w, CRED));
    Swap(s10, 0, f, 1, Identified(b, w, CRED), 5, []);
    AskOne(rp, s10, 1, 0, "b", w, 6, f);
    Swap(s11, 1, g, 0, f, 5, []);
    CountOne(s11, 0, 1, "a", 7, f.judgement, g, 5, []);
    Swap(s12, 0, Counted("a", CRED, f.judgement), 1, g, 7, [] + [7]);
    CountOne(s12, 1, 0, "b", 6, g.judgement, Counted("a", CRED, f.judgement), 7, [] + [7]);
    assert [] + [7] + [6] == [7, 6];
    CountedTo(StateAt(cfg, run, 13), 1, Counted("b", CRED, g.judgement), 0, Counted("a", CRED, f.judgement));
  }

  lemma CountedTo(s: State, p: nat, f: Finish, q: nat, g: Finish)
    requires Stand(s, p, f, q, g, 6, [7, 6])
    ensures CountsOf(s.h, KEY) == [7, 6] && KEY in s.creds && s.creds[KEY].signCount == 6 && !Increasing(Log(s.h, KEY, 5))
  {
    Falls(s.h);
  }
}
