/**
  The parts of the credential life cycle that rest on state outside the token: single use,
  which rests on each process's replay guards, and the end of a key's sessions, which rests on
  what ldap_manager says of the key at refresh.
*/
module LifecycleGuards {
  import opened Credentials
  import opened Lifecycle
  import opened LifecycleTheorems
  import G = ReplayGuard

  // ---- what a request may mint ---------------------------------------------------------------

  /** A bound session is minted only while ldap_manager vouches for exactly that generation. */
  predicate Vouched(s: State, c: Claims) {
    c.skid.Some? ==>
      && c.skgen.Some? && c.skid.value in s.keys
      && s.keys[c.skid.value].live && s.keys[c.skid.value].generation == c.skgen.value
  }

  /** What a minted credential of this step may say of when and where it came from. */
  predicate Matches(s: State, step: Step, e: Event) {
    e.Minted? ==>
      && e.at == s.now && Vouched(s, e.claims)
      && (e.origin.Redeemed? ==> step.Redeem? && e.origin == Redeemed(step.code, step.inst))
      && (e.origin.Asserted? ==> step.Exchange? && e.origin == Asserted(step.assertion, step.inst))
  }

  lemma OutcomeMatches(cfg: Config, s: State, step: Step, i: nat)
    requires LogOk(cfg, s.log) && i < |Outcome(cfg, s, step)|
    ensures Matches(s, step, Outcome(cfg, s, step)[i])
  {
    match step
    case Login(_, _, _, _, _, _) => LoginMatches(cfg, s, step, i);
    case KeyLogin(_, _, _, _, _, _) => KeyLoginMatches(cfg, s, step, i);
    case CompleteFactor(_, _, _, _, _) => FactorMatches(cfg, s, step, i);
    case OAuthCallback(_, _, _, _) => OAuthMatches(cfg, s, step, i);
    case Exchange(_, _, _, _, _) => ExchangeMatches(cfg, s, step, i);
    case Refresh(_, _, _) => RefreshMatches(cfg, s, step, i);
    case Handoff(_, _) => HandoffMatches(cfg, s, step, i);
    case Redeem(_, _, _, _) => RedeemMatches(cfg, s, step, i);
    case MintTicket(_, _, _, _) => TicketMatches(cfg, s, step, i);
    case Access(_, _) => AccessMatches(cfg, s, step, i);
    case TicketAccess(_, _, _) => ContentMatches(cfg, s, step, i);
    case _ =>
  }

  lemma LoginMatches(cfg: Config, s: State, step: Step, i: nat)
    requires step.Login? && i < |IssueToken(cfg, s, step)|
    ensures Matches(s, step, IssueToken(cfg, s, step)[i])
  {}

  lemma KeyLoginMatches(cfg: Config, s: State, step: Step, i: nat)
    requires step.KeyLogin? && i < |IssueServiceKeyToken(cfg, s, step)|
    ensures Matches(s, step, IssueServiceKeyToken(cfg, s, step)[i])
  {}

  lemma FactorMatches(cfg: Config, s: State, step: Step, i: nat)
    requires step.CompleteFactor? && i < |VerifyMfa(cfg, s, step)|
    ensures Matches(s, step, VerifyMfa(cfg, s, step)[i])
  {}

  lemma OAuthMatches(cfg: Config, s: State, step: Step, i: nat)
    requires step.OAuthCallback? && i < |OAuthLogin(cfg, s, step)|
    ensures Matches(s, step, OAuthLogin(cfg, s, step)[i])
  {}

  lemma ExchangeMatches(cfg: Config, s: State, step: Step, i: nat)
    requires step.Exchange? && i < |AuthExchange(cfg, s, step)|
    ensures Matches(s, step, AuthExchange(cfg, s, step)[i])
  {}

  lemma HandoffMatches(cfg: Config, s: State, step: Step, i: nat)
    requires step.Handoff? && i < |HandoffCode(cfg, s, step)|
    ensures Matches(s, step, HandoffCode(cfg, s, step)[i])
  {}

  lemma RedeemMatches(cfg: Config, s: State, step: Step, i: nat)
    requires step.Redeem? && i < |RedeemCode(cfg, s, step)|
    ensures Matches(s, step, RedeemCode(cfg, s, step)[i])
  {}

  lemma TicketMatches(cfg: Config, s: State, step: Step, i: nat)
    requires step.MintTicket? && i < |TicketFor(cfg, s, step)|
    ensures Matches(s, step, TicketFor(cfg, s, step)[i])
  {}

  lemma AccessMatches(cfg: Config, s: State, step: Step, i: nat)
    requires step.Access? && i < |ResourceRequest(cfg, s, step)|
    ensures Matches(s, step, ResourceRequest(cfg, s, step)[i])
  {}

  lemma ContentMatches(cfg: Config, s: State, step: Step, i: nat)
    requires step.TicketAccess? && i < |TicketedContent(s, step)|
    ensures Matches(s, step, TicketedContent(s, step)[i])
  {}

  lemma RefreshMatches(cfg: Config, s: State, step: Step, i: nat)
    requires LogOk(cfg, s.log) && step.Refresh? && i < |RefreshToken(cfg, s, step)|
    ensures Matches(s, step, RefreshToken(cfg, s, step)[i])
  {
    AuthenticateGives(cfg, s, step.auth, step.w);
  }

  // ---- single use ------------------------------------------------------------------------------

  /** One use of a single-use credential, as its guard knows it. */
  datatype Use = Use(handoff: bool, inst: int, jti: string, exp: int)

  function UseAt(log: seq<Event>, i: nat): Option<Use> {
    if i >= |log| || !log[i].Minted? then None
    else match log[i].origin
      case Redeemed(p, inst) =>
        if p < |log| && log[p].Minted? then Some(Use(true, inst, log[p].claims.jti.Or(""), log[p].claims.exp)) else None
      case Asserted(a, inst) => Some(Use(false, inst, a.jti, a.exp))
      case _ => None
  }

  function SeenBy(s: State, u: Use): G.Seen {
    GuardOf(if u.handoff then s.handoffSeen else s.assertionSeen, u.inst)
  }

  predicate Recorded(seen: G.Seen, u: Use) {
    u.jti in seen && seen[u.jti] >= u.exp
  }

  ghost predicate UsesRecorded(s: State) {
    forall i: nat :: UseAt(s.log, i).Some? && UseAt(s.log, i).value.jti != "" && s.now < UseAt(s.log, i).value.exp ==>
      Recorded(SeenBy(s, UseAt(s.log, i).value), UseAt(s.log, i).value)
  }

  ghost predicate UsedOnce(s: State) {
    forall i: nat, k: nat :: i < k && UseAt(s.log, i).Some? && UseAt(s.log, k) == UseAt(s.log, i)
                             && UseAt(s.log, i).value.jti != "" ==>
      s.log[k].at >= UseAt(s.log, i).value.exp
  }

  /** Serving any call, a guard keeps every record that has not expired. */
  lemma GuardKeeps(seen: G.Seen, jti: string, exp: int, now: int, u: Use)
    requires Recorded(seen, u) && now < u.exp
    ensures Recorded(G.AcceptSeen(seen, jti, exp, now), u)
  {}

  /** Whatever a step does, a record that has not expired stays. */
  lemma GuardStep(cfg: Config, s: State, step: Step, u: Use)
    requires Recorded(SeenBy(s, u), u) && s.now < u.exp
    ensures Recorded(SeenBy(Next(cfg, s, step), u), u)
  {
    if step.Redeem? && CodeOf(s, step.code).Some? && u.handoff && u.inst == step.inst {
      var c := CodeOf(s, step.code).value;
      GuardKeeps(GuardOf(s.handoffSeen, step.inst), c.jti.Or(""), c.exp, s.now, u);
    }
    if step.Exchange? && AssertionStands(s, step) && !u.handoff && u.inst == step.inst {
      GuardKeeps(GuardOf(s.assertionSeen, step.inst), step.assertion.jti, step.assertion.exp, s.now, u);
    }
  }

  lemma OldUse(cfg: Config, log: seq<Event>, more: seq<Event>, i: nat)
    requires LogOk(cfg, log) && i < |log|
    ensures UseAt(log + more, i) == UseAt(log, i)
  {
    assert EntryOk(cfg, log, i);
    assert forall m: nat :: m < |log| ==> (log + more)[m] == log[m];
  }

  /** Accepting puts a use on record that was not there. */
  lemma AcceptRecords(seen: G.Seen, u: Use, now: int)
    requires G.Accepts(seen, u.jti, now) && u.jti != "" && now < u.exp
    ensures !Recorded(seen, u) && Recorded(G.AcceptSeen(seen, u.jti, u.exp, now), u)
  {}

  /** A use at position `i` was the last thing logged, and its guard accepted it. */
  ghost predicate MetGuard(s: State, t: State, i: nat)
    requires i < |t.log| && UseAt(t.log, i).Some?
  {
    var u := UseAt(t.log, i).value;
    && i == |t.log| - 1 && t.log[i].at == s.now
    && G.Accepts(SeenBy(s, u), u.jti, s.now)
    && SeenBy(t, u) == G.AcceptSeen(SeenBy(s, u), u.jti, u.exp, s.now)
  }

  lemma RedeemMeetsGuard(cfg: Config, s: State, step: Step, t: State, i: nat)
    requires step.Redeem? && t.log == s.log + RedeemCode(cfg, s, step) && t.handoffSeen == HandoffGuards(s, step)
    requires |s.log| <= i < |t.log| && UseAt(t.log, i).Some?
    ensures MetGuard(s, t, i)
  {
    assert t.log[i] == RedeemCode(cfg, s, step)[i - |s.log|];
    assert t.log[step.code] == s.log[step.code];
  }

  lemma ExchangeMeetsGuard(cfg: Config, s: State, step: Step, t: State, i: nat)
    requires step.Exchange? && t.log == s.log + AuthExchange(cfg, s, step)
    requires t.assertionSeen == AssertionGuards(s, step)
    requires |s.log| <= i < |t.log| && UseAt(t.log, i).Some?
    ensures MetGuard(s, t, i)
  {
    assert t.log[i] == AuthExchange(cfg, s, step)[i - |s.log|];
  }

  lemma UnguardedUse(s: State, step: Step, t: State, more: seq<Event>, i: nat)
    requires t.log == s.log + more && |s.log| <= i < |t.log| && Matches(s, step, more[i - |s.log|])
    requires !step.Redeem? && !step.Exchange?
    ensures UseAt(t.log, i).None?
  {
    assert t.log[i] == more[i - |s.log|];
  }

  /** Every use a step adds to the log has met its guard. */
  ghost predicate NewUsesGuarded(s: State, t: State) {
    forall i: nat :: |s.log| <= i < |t.log| && UseAt(t.log, i).Some? ==> MetGuard(s, t, i)
  }

  lemma RedeemUsesGuarded(cfg: Config, s: State, step: Step)
    requires step.Redeem?
    ensures NewUsesGuarded(s, Next(cfg, s, step))
  {
    var t := Next(cfg, s, step);
    forall i: nat | |s.log| <= i < |t.log| && UseAt(t.log, i).Some? ensures MetGuard(s, t, i) {
      RedeemMeetsGuard(cfg, s, step, t, i);
    }
  }

  lemma ExchangeUsesGuarded(cfg: Config, s: State, step: Step)
    requires step.Exchange?
    ensures NewUsesGuarded(s, Next(cfg, s, step))
  {
    var t := Next(cfg, s, step);
    forall i: nat | |s.log| <= i < |t.log| && UseAt(t.log, i).Some? ensures MetGuard(s, t, i) {
      ExchangeMeetsGuard(cfg, s, step, t, i);
    }
  }

  /** A step that consults no guard uses nothing. */
  lemma UnguardedUsesNothing(s: State, step: Step, t: State, more: seq<Event>)
    requires !step.Redeem? && !step.Exchange? && t.log == s.log + more
    requires forall i: nat :: i < |more| ==> Matches(s, step, more[i])
    ensures NewUsesGuarded(s, t)
  {
    forall i: nat | |s.log| <= i < |t.log| ensures UseAt(t.log, i).None? {
      UnguardedUse(s, step, t, more, i);
    }
  }

  lemma UsesGrow(cfg: Config, s: State, t: State, more: seq<Event>)
    requires LogOk(cfg, s.log) && UsesRecorded(s) && UsedOnce(s)
    requires t.log == s.log + more && s.now <= t.now
    requires forall u: Use :: Recorded(SeenBy(s, u), u) && s.now < u.exp ==> Recorded(SeenBy(t, u), u)
    requires NewUsesGuarded(s, t)
    ensures UsesRecorded(t) && UsedOnce(t)
  {
    forall i: nat | UseAt(t.log, i).Some? && UseAt(t.log, i).value.jti != "" && t.now < UseAt(t.log, i).value.exp
      ensures Recorded(SeenBy(t, UseAt(t.log, i).value), UseAt(t.log, i).value)
    {
      var u := UseAt(t.log, i).value;
      if i < |s.log| {
        OldUse(cfg, s.log, more, i);
      } else {
        assert MetGuard(s, t, i);
        AcceptRecords(SeenBy(s, u), u, s.now);
      }
    }
    forall i: nat, k: nat | i < k && UseAt(t.log, i).Some? && UseAt(t.log, k) == UseAt(t.log, i)
                            && UseAt(t.log, i).value.jti != ""
      ensures t.log[k].at >= UseAt(t.log, i).value.exp
    {
      var u := UseAt(t.log, i).value;
      if k < |s.log| {
        OldUse(cfg, s.log, more, i);
        OldUse(cfg, s.log, more, k);
      } else {
        assert MetGuard(s, t, k);
        if i < |s.log| && s.now < u.exp {
          OldUse(cfg, s.log, more, i);
          AcceptRecords(SeenBy(s, u), u, s.now);
        }
      }
    }
  }

  lemma NextKeepsUses(cfg: Config, s: State, step: Step)
    requires LogOk(cfg, s.log) && UsesRecorded(s) && UsedOnce(s) && Enabled(s, step)
    ensures UsesRecorded(Next(cfg, s, step)) && UsedOnce(Next(cfg, s, step))
  {
    var t := Next(cfg, s, step);
    forall u: Use | Recorded(SeenBy(s, u), u) && s.now < u.exp ensures Recorded(SeenBy(t, u), u) {
      GuardStep(cfg, s, step, u);
    }
    if step.Redeem? {
      RedeemUsesGuarded(cfg, s, step);
    } else if step.Exchange? {
      ExchangeUsesGuarded(cfg, s, step);
    } else {
      forall i: nat | i < |Outcome(cfg, s, step)| ensures Matches(s, step, Outcome(cfg, s, step)[i]) {
        OutcomeMatches(cfg, s, step, i);
      }
      UnguardedUsesNothing(s, step, t, Outcome(cfg, s, step));
    }
    UsesGrow(cfg, s, t, Outcome(cfg, s, step));
  }

  lemma {:induction false} RunKeepsUses(cfg: Config, s: State, steps: seq<Step>)
    requires LogOk(cfg, s.log) && UsesRecorded(s) && UsedOnce(s) && ValidRun(cfg, s, steps)
    ensures UsesRecorded(Exec(cfg, s, steps)) && UsedOnce(Exec(cfg, s, steps))
    decreases |steps|
  {
    if steps == [] {
    } else {
      NextKeepsLog(cfg, s, steps[0]);
      NextKeepsUses(cfg, s, steps[0]);
      RunKeepsUses(cfg, Next(cfg, s, steps[0]), steps[1..]);
    }
  }

  /** In every run, one process turns a hand-off code into a session at most once, ever. */
  lemma CodeRedeemedOnce(cfg: Config, s0: State, steps: seq<Step>, i: nat, k: nat)
    requires Initial(s0) && ValidRun(cfg, s0, steps)
    requires var log := Exec(cfg, s0, steps).log;
             i < k < |log| && log[i].Minted? && log[k].Minted? && log[i].origin.Redeemed? && log[k].origin.Redeemed?
             && log[i].origin.inst == log[k].origin.inst
    ensures var log := Exec(cfg, s0, steps).log;
            && log[i].origin.code < i && log[k].origin.code < k
            && log[log[i].origin.code].Minted? && log[log[k].origin.code].Minted?
            && log[log[i].origin.code].claims != log[log[k].origin.code].claims
  {
    ReachableLog(cfg, s0, steps);
    RunKeepsUses(cfg, s0, steps);
    var s := Exec(cfg, s0, steps);
    assert EntryOk(cfg, s.log, i) && EntryOk(cfg, s.log, k);
    var ci, ck := s.log[i].origin.code, s.log[k].origin.code;
    assert EntryOk(cfg, s.log, ci);
    assert s.log[ci].claims == s.log[ck].claims ==> UseAt(s.log, i).Some? && UseAt(s.log, k) == UseAt(s.log, i);
  }

  /** An integration assertion likewise, strictly before its expiry; the 60 s leeway is outside the guard. */
  lemma AssertionUsedOnce(cfg: Config, s0: State, steps: seq<Step>, i: nat, k: nat)
    requires Initial(s0) && ValidRun(cfg, s0, steps)
    requires var log := Exec(cfg, s0, steps).log;
             i < k < |log| && log[i].Minted? && log[k].Minted?
             && log[i].origin.Asserted? && log[k].origin == log[i].origin && log[i].origin.assertion.jti != ""
    ensures Exec(cfg, s0, steps).log[k].at >= Exec(cfg, s0, steps).log[i].origin.assertion.exp
  {
    ReachableLog(cfg, s0, steps);
    RunKeepsUses(cfg, s0, steps);
    var s := Exec(cfg, s0, steps);
    assert UseAt(s.log, i).Some? && UseAt(s.log, k) == UseAt(s.log, i);
  }

  // ---- the end of a key's sessions ---------------------------------------------------------------

  ghost predicate KeyTimes(s: State) {
    forall i: nat :: i < |s.log| && s.log[i].Minted? ==> s.log[i].at <= s.now
  }

  ghost predicate RetiredStayDead(s: State) {
    forall k, g :: (k, g) in s.retired ==> !(k in s.keys && s.keys[k].live && s.keys[k].generation == g)
  }

  /** No session of a retired generation was minted after it was retired. */
  predicate MintedInTime(s: State, i: nat)
    requires i < |s.log| && s.log[i].Minted?
  {
    var c := s.log[i].claims;
    c.skid.Some? && c.skgen.Some? && (c.skid.value, c.skgen.value) in s.retired ==>
      s.log[i].at <= s.retired[(c.skid.value, c.skgen.value)]
  }

  ghost predicate KeysInv(s: State) {
    && KeyTimes(s) && RetiredStayDead(s)
    && (forall i: nat :: i < |s.log| && s.log[i].Minted? ==> MintedInTime(s, i))
  }

  /** Requests leave the key table alone; rotating or revoking retires what was there, now. */
  lemma RetiringStep(cfg: Config, s: State, step: Step)
    requires RetiredStayDead(s) && Enabled(s, step)
    ensures var t := Next(cfg, s, step);
            && RetiredStayDead(t)
            && (forall p :: p in s.retired ==> p in t.retired && t.retired[p] == s.retired[p])
            && (forall p :: p in t.retired && p !in s.retired ==> t.retired[p] == s.now && Outcome(cfg, s, step) == [])
  {}

  lemma KeysInvGrows(s: State, step: Step, t: State, more: seq<Event>)
    requires KeysInv(s) && t.log == s.log + more && s.now <= t.now && RetiredStayDead(t)
    requires forall i: nat :: i < |more| ==> Matches(s, step, more[i])
    requires forall p :: p in s.retired ==> p in t.retired && t.retired[p] == s.retired[p]
    requires forall p :: p in t.retired && p !in s.retired ==> t.retired[p] == s.now && more == []
    ensures KeysInv(t)
  {
    forall i: nat | i < |t.log| && t.log[i].Minted? ensures t.log[i].at <= t.now && MintedInTime(t, i) {
      if i < |s.log| {
        assert t.log[i] == s.log[i];
        assert MintedInTime(s, i);
      } else {
        assert t.log[i] == more[i - |s.log|] && Matches(s, step, more[i - |s.log|]);
      }
    }
  }

  lemma NextKeepsKeys(cfg: Config, s: State, step: Step)
    requires LogOk(cfg, s.log) && KeysInv(s) && Enabled(s, step)
    ensures KeysInv(Next(cfg, s, step))
  {
    RetiringStep(cfg, s, step);
    forall i: nat | i < |Outcome(cfg, s, step)| ensures Matches(s, step, Outcome(cfg, s, step)[i]) {
      OutcomeMatches(cfg, s, step, i);
    }
    KeysInvGrows(s, step, Next(cfg, s, step), Outcome(cfg, s, step));
  }

  lemma {:induction false} RunKeepsKeys(cfg: Config, s: State, steps: seq<Step>)
    requires LogOk(cfg, s.log) && KeysInv(s) && ValidRun(cfg, s, steps)
    ensures KeysInv(Exec(cfg, s, steps))
    decreases |steps|
  {
    if steps == [] {
    } else {
      NextKeepsLog(cfg, s, steps[0]);
      NextKeepsKeys(cfg, s, steps[0]);
      RunKeepsKeys(cfg, Next(cfg, s, steps[0]), steps[1..]);
    }
  }

  /**
    After a key's secret generation is rotated away or revoked at `r`, no session of its chain,
    refreshed however often, verifies at or after `r` plus one token life.
  */
  lemma RetiredKeyDies(cfg: Config, s0: State, steps: seq<Step>, i: nat, key: string, gen: string)
    requires Initial(s0) && ValidRun(cfg, s0, steps)
    requires var s := Exec(cfg, s0, steps);
             && IsMinted(s.log, i, Session) && s.log[i].claims.skid == Some(key) && s.log[i].claims.skgen == Some(gen)
             && (key, gen) in s.retired && s.retired[(key, gen)] + cfg.tokenTtl <= s.now
    ensures VerifyToken(Exec(cfg, s0, steps), i).None?
  {
    ReachableLog(cfg, s0, steps);
    RunKeepsKeys(cfg, s0, steps);
    var s := Exec(cfg, s0, steps);
    assert EntryOk(cfg, s.log, i) && MintedInTime(s, i);
  }
}
