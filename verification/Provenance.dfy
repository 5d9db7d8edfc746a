/**
  Where each credential of a run came from: the very request that added it to the log, and what that
  request had been shown. A second factor on a session's record was presented and accepted, a key's
  secret was given, a challenge was answered from the address it was issued to.
*/
module Provenance {
  import opened Credentials
  import opened Lifecycle
  import opened LifecycleTheorems
  import opened Requests
  import opened LifecycleGuards

  // ---- the request behind an entry ------------------------------------------------------------

  /** This request, made in state `t`, added the entry at `i` of the log. */
  ghost predicate Added(cfg: Config, t: State, step: Step, log: seq<Event>, i: nat) {
    |t.log| <= i < |Next(cfg, t, step).log| && t.log <= Next(cfg, t, step).log <= log
  }

  /** The entry at `i` was added by the `m`-th request of the run. */
  ghost predicate AddedBy(cfg: Config, s: State, steps: seq<Step>, i: nat, m: nat) {
    m < |steps| && Added(cfg, Exec(cfg, s, steps[..m]), steps[m], Exec(cfg, s, steps).log, i)
  }

  lemma PrefixTail(cfg: Config, s: State, steps: seq<Step>, m: nat)
    requires m < |steps|
    ensures Exec(cfg, s, steps[..m + 1]) == Exec(cfg, Next(cfg, s, steps[0]), steps[1..][..m])
  {
    assert steps[..m + 1][1..] == steps[1..][..m] && steps[..m + 1][0] == steps[0];
  }

  lemma AddedFirst(cfg: Config, s: State, steps: seq<Step>, i: nat)
    requires steps != [] && |s.log| <= i < |Next(cfg, s, steps[0]).log|
    ensures AddedBy(cfg, s, steps, i, 0)
  {
    LogExtends(cfg, Next(cfg, s, steps[0]), steps[1..]);
    NoStepsNoChange(cfg, s, steps);
  }

  lemma NoStepsNoChange(cfg: Config, s: State, steps: seq<Step>)
    ensures Exec(cfg, s, steps[..0]) == s
  {}

  lemma AddedLater(cfg: Config, s: State, steps: seq<Step>, i: nat, n: nat)
    requires steps != [] && AddedBy(cfg, Next(cfg, s, steps[0]), steps[1..], i, n)
    ensures AddedBy(cfg, s, steps, i, n + 1)
  {
    PrefixTail(cfg, s, steps, n);
    assert steps[1..][n] == steps[n + 1];
  }

  lemma FirstThenRest(cfg: Config, s: State, steps: seq<Step>)
    requires Exec(cfg, s, steps) != s
    ensures steps != [] && Exec(cfg, s, steps) == Exec(cfg, Next(cfg, s, steps[0]), steps[1..])
  {}

  /** Every entry a run added was added by one of its requests. */
  lemma {:induction false} FindRequest(cfg: Config, s: State, steps: seq<Step>, i: nat) returns (m: nat)
    requires |s.log| <= i < |Exec(cfg, s, steps).log|
    ensures AddedBy(cfg, s, steps, i, m)
    decreases |steps|
  {
    FirstThenRest(cfg, s, steps);
    if i < |Next(cfg, s, steps[0]).log| {
      AddedFirst(cfg, s, steps, i);
      m := 0;
    } else {
      m := FindRequest(cfg, Next(cfg, s, steps[0]), steps[1..], i);
      AddedLater(cfg, s, steps, i, m);
      m := m + 1;
    }
  }

  lemma {:induction false} PrefixIsValid(cfg: Config, s: State, steps: seq<Step>, m: nat)
    requires ValidRun(cfg, s, steps) && m < |steps|
    ensures ValidRun(cfg, s, steps[..m]) && Enabled(Exec(cfg, s, steps[..m]), steps[m])
    decreases m
  {
    if m == 0 {
    } else {
      PrefixIsValid(cfg, Next(cfg, s, steps[0]), steps[1..], m - 1);
      PrefixTail(cfg, s, steps, m - 1);
      assert steps[..m][1..] == steps[1..][..m - 1];
    }
  }

  // ---- what a request must have shown -------------------------------------------------------------

  /** What a request has to have shown, in state `s`, for it to mint a credential of this origin. */
  predicate Shown(cfg: Config, s: State, step: Step, e: Event)
    requires e.Minted?
  {
    match e.origin
    case PasswordLogin =>
      step.Login? && step.bound.Some? && step.bound.value.user == e.claims.sub
      && (cfg.mfaEnabled ==> step.mfa == Some(false))
    case Challenged =>
      step.Login? && step.bound.Some? && step.bound.value.user == e.claims.sub && e.claims.mip == Some(step.ip)
    case SecondFactorVerified(p, means) =>
      && step.CompleteFactor? && step.good && step.factor.Verify? && means == Means(step.factor)
      && step.token == p && Live(s, p) && s.log[p].claims.mip.Or("") == step.ip
    case Enrolled(p) =>
      && step.CompleteFactor? && step.good && step.factor.EnrolComplete?
      && step.token == p && Live(s, p) && s.log[p].claims.mip.Or("") == step.ip
    case Federated => step.OAuthCallback? && step.user != "" && step.user == e.claims.sub
    case KeyPresented(id) =>
      && step.KeyLogin? && step.keyId == id && step.secretGiven && step.secretGood
      && KeyStands(s, id, e.claims.tenant) && s.keys[id].uid == e.claims.sub
    case Asserted(a, inst) => step.Exchange? && step.assertion == a && step.inst == inst && step.verified
    case Redeemed(p, inst) => step.Redeem? && step.code == p && step.inst == inst && Live(s, p)
    case Refreshed(p) => step.Refresh? && p == ParentOf(step.auth)
    case HandedOff(p) => step.Handoff? && p == ParentOf(step.auth)
    case Ticketed(p, id, uid) =>
      && step.MintTicket? && p == ParentOf(step.auth) && uid == step.uid
      && (e.claims.typ == Some("playback") ==> e.claims.exp <= s.now + 1800)
  }

  lemma LoginShown(cfg: Config, s: State, step: Step, i: nat)
    requires step.Login? && i < |IssueToken(cfg, s, step)| && IssueToken(cfg, s, step)[i].Minted?
    ensures Shown(cfg, s, step, IssueToken(cfg, s, step)[i])
  {
    LoginMintsIff(cfg, s, step);
    assert Mints(IssueToken(cfg, s, step));
    assert IssueToken(cfg, s, step)[i] == LoginCredential(cfg, s, step);
  }

  lemma KeyLoginShown(cfg: Config, s: State, step: Step, i: nat)
    requires step.KeyLogin? && i < |IssueServiceKeyToken(cfg, s, step)| && IssueServiceKeyToken(cfg, s, step)[i].Minted?
    requires step.keyId != ""
    ensures Shown(cfg, s, step, IssueServiceKeyToken(cfg, s, step)[i])
  {
    var tenant := OrDefault(step.tenant);
    KeyLoginMintsIff(cfg, s, step);
    assert Mints(IssueServiceKeyToken(cfg, s, step));
    var key := s.keys[step.keyId];
    KeySessionIsConfined(key.uid, tenant, ["svc"], step.w.byTenant, step.w.jti, "", step.keyId, key.generation,
                         s.now, cfg.tokenTtl);
  }

  lemma FactorShown(cfg: Config, s: State, step: Step, i: nat)
    requires step.CompleteFactor? && i < |VerifyMfa(cfg, s, step)| && VerifyMfa(cfg, s, step)[i].Minted?
    ensures Shown(cfg, s, step, VerifyMfa(cfg, s, step)[i])
  {
    FactorMintsIff(cfg, s, step);
    assert Mints(VerifyMfa(cfg, s, step));
  }

  lemma OAuthShown(cfg: Config, s: State, step: Step, i: nat)
    requires step.OAuthCallback? && i < |OAuthLogin(cfg, s, step)| && OAuthLogin(cfg, s, step)[i].Minted?
    ensures Shown(cfg, s, step, OAuthLogin(cfg, s, step)[i])
  {
    OAuthMintsIff(cfg, s, step);
    assert Mints(OAuthLogin(cfg, s, step));
  }

  lemma ExchangeShown(cfg: Config, s: State, step: Step, i: nat)
    requires step.Exchange? && i < |AuthExchange(cfg, s, step)| && AuthExchange(cfg, s, step)[i].Minted?
    ensures Shown(cfg, s, step, AuthExchange(cfg, s, step)[i])
  {}

  lemma RedeemShown(cfg: Config, s: State, step: Step, i: nat)
    requires step.Redeem? && i < |RedeemCode(cfg, s, step)| && RedeemCode(cfg, s, step)[i].Minted?
    ensures Shown(cfg, s, step, RedeemCode(cfg, s, step)[i])
  {}

  lemma RefreshShown(cfg: Config, s: State, step: Step, i: nat)
    requires step.Refresh? && i < |RefreshToken(cfg, s, step)| && RefreshToken(cfg, s, step)[i].Minted?
    ensures Shown(cfg, s, step, RefreshToken(cfg, s, step)[i])
  {
    var who := Authenticate(cfg, s, step.auth, step.w);
    assert Mints(RefreshToken(cfg, s, step));
    if who.Some? && who.value.keyId != "" {
      RefreshOfKeySession(cfg, s, step);
      KeyRefreshMintsIff(cfg, s, step, who.value);
    } else {
      RefreshMintsIff(cfg, s, step);
    }
  }

  lemma HandoffShown(cfg: Config, s: State, step: Step, i: nat)
    requires step.Handoff? && i < |HandoffCode(cfg, s, step)| && HandoffCode(cfg, s, step)[i].Minted?
    ensures Shown(cfg, s, step, HandoffCode(cfg, s, step)[i])
  {
    HandoffMintsIff(cfg, s, step);
    assert Mints(HandoffCode(cfg, s, step));
  }

  lemma TicketShown(cfg: Config, s: State, step: Step, i: nat)
    requires step.MintTicket? && i < |TicketFor(cfg, s, step)| && TicketFor(cfg, s, step)[i].Minted?
    ensures Shown(cfg, s, step, TicketFor(cfg, s, step)[i])
  {
    TicketMintsIff(cfg, s, step);
    assert Mints(TicketFor(cfg, s, step));
    assert "playback"[0] != "download"[0];
  }

  /** Only a request that showed what its kind demands adds a credential. */
  lemma OutcomeShown(cfg: Config, s: State, step: Step, i: nat)
    requires Enabled(s, step) && i < |Outcome(cfg, s, step)| && Outcome(cfg, s, step)[i].Minted?
    ensures Shown(cfg, s, step, Outcome(cfg, s, step)[i])
  {
    match step
    case Login(_, _, _, _, _, _) => LoginShown(cfg, s, step, i);
    case KeyLogin(_, _, _, _, _, _) =>
      assert step.keyId != "" by { assert |"fesk_"| == 5; }
      KeyLoginShown(cfg, s, step, i);
    case CompleteFactor(_, _, _, _, _) => FactorShown(cfg, s, step, i);
    case OAuthCallback(_, _, _, _) => OAuthShown(cfg, s, step, i);
    case Exchange(_, _, _, _, _) => ExchangeShown(cfg, s, step, i);
    case Refresh(_, _, _) => RefreshShown(cfg, s, step, i);
    case Handoff(_, _) => HandoffShown(cfg, s, step, i);
    case Redeem(_, _, _, _) => RedeemShown(cfg, s, step, i);
    case MintTicket(_, _, _, _) => TicketShown(cfg, s, step, i);
    case Access(_, _) => assert false;
    case TicketAccess(_, _, _) => assert false;
    case _ => assert false;
  }

  // ---- over whole runs ---------------------------------------------------------------------------

  /**
    In every run each credential was added by one request of it, and that request had shown what the
    credential's origin says: the code accepted, the secret given, the assertion verified.
  */
  lemma EveryCredentialWasEarned(cfg: Config, s0: State, steps: seq<Step>, i: nat) returns (m: nat)
    requires Initial(s0) && ValidRun(cfg, s0, steps)
    requires i < |Exec(cfg, s0, steps).log| && Exec(cfg, s0, steps).log[i].Minted?
    ensures AddedBy(cfg, s0, steps, i, m)
    ensures Shown(cfg, Exec(cfg, s0, steps[..m]), steps[m], Exec(cfg, s0, steps).log[i])
  {
    m := FindRequest(cfg, s0, steps, i);
    PrefixIsValid(cfg, s0, steps, m);
    EarnedIn(cfg, Exec(cfg, s0, steps[..m]), steps[m], Exec(cfg, s0, steps).log, i);
  }

  lemma EarnedIn(cfg: Config, t: State, step: Step, log: seq<Event>, i: nat)
    requires Enabled(t, step) && Added(cfg, t, step, log, i) && log[i].Minted?
    ensures Shown(cfg, t, step, log[i])
  {
    EntryIs(t.log, Outcome(cfg, t, step), Next(cfg, t, step).log, log, i);
    EventShown(cfg, t, step, log[i]);
  }

  lemma EventShown(cfg: Config, s: State, step: Step, e: Event)
    requires Enabled(s, step) && e in Outcome(cfg, s, step) && e.Minted?
    ensures Shown(cfg, s, step, e)
  {
    var i: nat :| i < |Outcome(cfg, s, step)| && Outcome(cfg, s, step)[i] == e;
    OutcomeShown(cfg, s, step, i);
  }

  lemma EntryIs(a: seq<Event>, more: seq<Event>, next: seq<Event>, log: seq<Event>, i: nat)
    requires next == a + more && next <= log && |a| <= i < |next|
    ensures log[i] in more
  {
    assert log[i] == next[i] == more[i - |a|];
  }

  /** The request presented a second factor that was accepted, or something that stands for one. */
  predicate ProvesFactor(step: Step) {
    match step
    case CompleteFactor(_, _, factor, good, _) => good && IsSecondFactor(Means(factor))
    case OAuthCallback(_, user, _, _) => user != ""
    case KeyLogin(_, given, secret, _, _, _) => given && secret
    case Exchange(a, verified, _, _, _) => verified && SatisfiesSecondFactor(a.amr)
    case _ => false
  }

  /**
    In every run, a session that counts as second-factored goes back to a request in which a second
    factor was presented and accepted, for the same user. A password alone never gets there.
  */
  lemma SecondFactorWasPresented(cfg: Config, s0: State, steps: seq<Step>, i: nat) returns (m: nat)
    requires Initial(s0) && ValidRun(cfg, s0, steps) && IsMinted(Exec(cfg, s0, steps).log, i, Session)
    requires SatisfiesSecondFactor(Methods(Exec(cfg, s0, steps).log, i))
    ensures var log := Exec(cfg, s0, steps).log;
            && AddedBy(cfg, s0, steps, Root(log, i), m) && ProvesFactor(steps[m])
            && log[Root(log, i)].Minted? && log[Root(log, i)].claims.sub == log[i].claims.sub
  {
    var log := Exec(cfg, s0, steps).log;
    SecondFactorProvenance(cfg, s0, steps, i);
    ReachableLog(cfg, s0, steps);
    LineageKeepsUser(cfg, log, i);
    m := EveryCredentialWasEarned(cfg, s0, steps, Root(log, i));
    WeakMethods();
  }

  /** A challenge is completed only from the address of the login that was challenged, and only for its user. */
  lemma ChallengeBoundToAddress(cfg: Config, s0: State, steps: seq<Step>, i: nat) returns (m: nat, n: nat)
    requires Initial(s0) && ValidRun(cfg, s0, steps)
    requires var log := Exec(cfg, s0, steps).log;
             i < |log| && log[i].Minted? && (log[i].origin.SecondFactorVerified? || log[i].origin.Enrolled?)
    ensures var log := Exec(cfg, s0, steps).log;
            && AddedBy(cfg, s0, steps, i, m) && steps[m].CompleteFactor? && steps[m].good
            && log[i].origin.challenge < i && AddedBy(cfg, s0, steps, log[i].origin.challenge, n)
            && steps[n].Login? && steps[n].bound.Some? && steps[n].bound.value.user == log[i].claims.sub
            && steps[n].ip == steps[m].ip
  {
    var log := Exec(cfg, s0, steps).log;
    ReachableLog(cfg, s0, steps);
    var p := log[i].origin.challenge;
    assert EntryOk(cfg, log, i) && EntryOk(cfg, log, p);
    m := EveryCredentialWasEarned(cfg, s0, steps, i);
    n := EveryCredentialWasEarned(cfg, s0, steps, p);
    assert Exec(cfg, s0, steps[..m]).log[p] == log[p];
  }

  /** No playback ticket of any run outlives half an hour. */
  lemma PlaybackTicketsAreShort(cfg: Config, s0: State, steps: seq<Step>, i: nat)
    requires Initial(s0) && ValidRun(cfg, s0, steps)
    requires IsMinted(Exec(cfg, s0, steps).log, i, Ticket)
    requires Exec(cfg, s0, steps).log[i].claims.typ == Some("playback")
    ensures Exec(cfg, s0, steps).log[i].claims.exp <= Exec(cfg, s0, steps).log[i].claims.iat + 1800
  {
    ReachableLog(cfg, s0, steps);
    assert EntryOk(cfg, Exec(cfg, s0, steps).log, i);
    var m := EveryCredentialWasEarned(cfg, s0, steps, i);
    var t := Exec(cfg, s0, steps[..m]);
    TicketMintsIff(cfg, t, steps[m]);
    assert Outcome(cfg, t, steps[m]) == TicketFor(cfg, t, steps[m]);
    assert Mints(TicketFor(cfg, t, steps[m]));
  }

  // ---- the end of a key --------------------------------------------------------------------------

  lemma {:induction false} ExecSplits(cfg: Config, s: State, steps: seq<Step>, m: nat)
    requires m <= |steps| && ValidRun(cfg, s, steps)
    ensures Exec(cfg, s, steps) == Exec(cfg, Exec(cfg, s, steps[..m]), steps[m..])
    ensures ValidRun(cfg, Exec(cfg, s, steps[..m]), steps[m..])
    decreases m
  {
    if m == 0 {
      assert steps[..0] == [] && steps[0..] == steps;
    } else {
      ExecSplits(cfg, Next(cfg, s, steps[0]), steps[1..], m - 1);
      PrefixTail(cfg, s, steps, m - 1);
      assert steps[1..][m - 1..] == steps[m..];
    }
  }

  /** Nothing was retired in the future. */
  ghost predicate RetiredPast(s: State) {
    forall p :: p in s.retired ==> s.retired[p] <= s.now
  }

  lemma {:induction false} RunKeepsRetired(cfg: Config, s: State, steps: seq<Step>)
    requires RetiredPast(s) && RetiredStayDead(s) && ValidRun(cfg, s, steps)
    ensures RetiredPast(Exec(cfg, s, steps)) && RetiredStayDead(Exec(cfg, s, steps))
    ensures forall p :: p in s.retired ==>
              p in Exec(cfg, s, steps).retired && Exec(cfg, s, steps).retired[p] == s.retired[p]
    decreases |steps|
  {
    if steps == [] {
    } else {
      RetiringStep(cfg, s, steps[0]);
      RunKeepsRetired(cfg, Next(cfg, s, steps[0]), steps[1..]);
    }
  }

  /** Rotating or revoking a key retires the generation it had, no later than now. */
  lemma RetiringIsRecorded(cfg: Config, s: State, step: Step)
    requires RetiredPast(s) && (step.PutKey? || step.RevokeKey?) && step.keyId in s.keys
    ensures var p, t := (step.keyId, s.keys[step.keyId].generation), Next(cfg, s, step);
            p in t.retired && t.retired[p] <= s.now
  {}

  /**
    A rotation or revocation ends the key's old chain: whatever requests come before and after it, one
    token life later no session of that key and generation verifies any more.
  */
  lemma RotationEndsChain(cfg: Config, s0: State, steps: seq<Step>, m: nat, i: nat)
    requires Initial(s0) && ValidRun(cfg, s0, steps)
    requires m < |steps| && (steps[m].PutKey? || steps[m].RevokeKey?)
    requires var t, s := Exec(cfg, s0, steps[..m]), Exec(cfg, s0, steps);
             && steps[m].keyId in t.keys && t.now + cfg.tokenTtl <= s.now
             && IsMinted(s.log, i, Session) && s.log[i].claims.skid == Some(steps[m].keyId)
             && s.log[i].claims.skgen == Some(t.keys[steps[m].keyId].generation)
    ensures VerifyToken(Exec(cfg, s0, steps), i).None?
  {
    var t, s := Exec(cfg, s0, steps[..m]), Exec(cfg, s0, steps);
    var key, gen := steps[m].keyId, t.keys[steps[m].keyId].generation;
    PrefixIsValid(cfg, s0, steps, m);
    ExecSplits(cfg, s0, steps, m);
    RunKeepsRetired(cfg, s0, steps[..m]);
    RetiringIsRecorded(cfg, t, steps[m]);
    RetiringStep(cfg, t, steps[m]);
    assert steps[m..][0] == steps[m];
    RunKeepsRetired(cfg, Next(cfg, t, steps[m]), steps[m..][1..]);
    RetiredKeyDies(cfg, s0, steps, i, key, gen);
  }
}
