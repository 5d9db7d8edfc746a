/**
  Which tenant a minted credential is for, over whole runs: a session is always stamped with a
  tenant it holds roles in, if it holds any, and what it inherits from a code or a challenge is
  that credential's tenant exactly as far as its roles allow.
*/
module LifecycleTenants {
  import opened Credentials
  import opened Lifecycle
  import opened LifecycleTheorems
  import opened Requests

  /** A credential that stays usable where it was stamped. */
  predicate AtHome(c: Claims) {
    c.roles.Some? && (c.roles.value == map[] || c.tenant in c.roles.value)
  }

  /** The tenant of `c` is that of the credential at `p`, exactly when the roles of `c` allow it. */
  predicate Inherits(log: seq<Event>, p: nat, c: Claims) {
    && p < |log| && log[p].Minted? && c.roles.Some?
    && (c.tenant == log[p].claims.tenant <==> c.roles.value == map[] || log[p].claims.tenant in c.roles.value)
  }

  predicate StampOk(log: seq<Event>, e: Event) {
    e.Minted? ==>
      && (e.kind == Session || e.kind == Service ==> AtHome(e.claims))
      && match e.origin
         case Redeemed(p, _) => Inherits(log, p, e.claims)
         case SecondFactorVerified(p, _) => Inherits(log, p, e.claims)
         case Enrolled(p) => Inherits(log, p, e.claims)
         case HandedOff(p) =>
           p.Some? ==>
             && p.value < |log| && log[p.value].Minted?
             && TokenTenantMember(log[p.value].claims, e.claims.tenant)
         case _ => true
  }

  ghost predicate AllStamped(log: seq<Event>) {
    forall i: nat :: i < |log| ==> StampOk(log, log[i])
  }

  // ---- handler by handler ----------------------------------------------------------------

  lemma SessionStamp(cfg: Config, s: State, w: World, user: string, tenant: string, amr: seq<string>, aip: string)
    ensures var c := SessionFor(cfg, s, w, user, tenant, amr, aip);
            AtHome(c) && (c.tenant == tenant <==> c.roles.value == map[] || tenant in c.roles.value)
  {
    StampIff(w.byTenant, tenant);
  }

  lemma LoginStamped(cfg: Config, s: State, step: Step, i: nat)
    requires step.Login? && i < |IssueToken(cfg, s, step)|
    ensures StampOk(s.log, IssueToken(cfg, s, step)[i])
  {
    if IssueToken(cfg, s, step)[i].Minted? {
      LoginMintsIff(cfg, s, step);
      assert Mints(IssueToken(cfg, s, step));
      var tenant := Landing(OrDefault(step.tenant), step.w.tenants);
      SessionStamp(cfg, s, step.w, step.bound.value.user, tenant, ["pwd"], "");
      assert IssueToken(cfg, s, step)[i] == LoginCredential(cfg, s, step);
    }
  }

  lemma KeyLoginStamped(cfg: Config, s: State, step: Step, i: nat)
    requires step.KeyLogin? && Enabled(s, step) && i < |IssueServiceKeyToken(cfg, s, step)|
    ensures StampOk(s.log, IssueServiceKeyToken(cfg, s, step)[i])
  {
    var tenant := if step.tenant == "" then "default" else step.tenant;
    StampIff(RolesForKeySession(step.w.byTenant, tenant), tenant);
    assert step.keyId != "" by { assert |"fesk_"| == 5; }
  }

  lemma FactorStamped(cfg: Config, s: State, step: Step, i: nat)
    requires step.CompleteFactor? && i < |VerifyMfa(cfg, s, step)|
    ensures StampOk(s.log, VerifyMfa(cfg, s, step)[i])
  {
    var v := VerifyToken(s, step.token);
    if v.Some? {
      var means := if step.factor.EnrolComplete? || step.factor.means == "" then "totp" else step.factor.means;
      SessionStamp(cfg, s, step.w, v.value.sub, v.value.tenant, ["pwd", means], "");
    }
  }

  lemma ExchangeStamped(cfg: Config, s: State, step: Step, i: nat)
    requires step.Exchange? && i < |AuthExchange(cfg, s, step)|
    ensures StampOk(s.log, AuthExchange(cfg, s, step)[i])
  {
    var w, a := step.w, step.assertion;
    if w.tenants != [] {
      var tenant := if a.tenant != "" && a.tenant in w.tenants then a.tenant else w.tenants[0];
      SessionStamp(cfg, s, w, a.sub, tenant, a.amr + ["integration"], step.ip);
    }
  }

  lemma KeyRefreshStamped(cfg: Config, s: State, step: Step, id: Identity, i: nat)
    requires step.Refresh? && id.keyId != "" && i < |RefreshServiceKeyToken(cfg, s, step, id)|
    ensures StampOk(s.log, RefreshServiceKeyToken(cfg, s, step, id)[i])
  {
    StampIff(RolesForKeySession(step.w.byTenant, id.tenant), id.tenant);
  }

  lemma RefreshStamped(cfg: Config, s: State, step: Step, i: nat)
    requires step.Refresh? && i < |RefreshToken(cfg, s, step)|
    ensures StampOk(s.log, RefreshToken(cfg, s, step)[i])
  {
    var who := Authenticate(cfg, s, step.auth, step.w);
    if who.Some? && who.value.keyId != "" {
      KeyRefreshStamped(cfg, s, step, who.value, i);
    } else if who.Some? && step.w.tenants != [] {
      var id := who.value;
      var tenant := if id.tenant in step.w.tenants then id.tenant else step.w.tenants[0];
      SessionStamp(cfg, s, step.w, id.user, tenant, if id.amr == [] then ["pwd"] else id.amr, "");
    }
  }

  lemma HandoffStamped(cfg: Config, s: State, step: Step, i: nat)
    requires LogOk(cfg, s.log) && step.Handoff? && i < |HandoffCode(cfg, s, step)|
    ensures StampOk(s.log, HandoffCode(cfg, s, step)[i])
  {
    AuthenticateGives(cfg, s, step.auth, step.w);
  }

  lemma RedeemStamped(cfg: Config, s: State, step: Step, i: nat)
    requires step.Redeem? && i < |RedeemCode(cfg, s, step)|
    ensures StampOk(s.log, RedeemCode(cfg, s, step)[i])
  {
    var v := CodeOf(s, step.code);
    if v.Some? {
      SessionStamp(cfg, s, step.w, v.value.sub, v.value.tenant, ["sso"] + v.value.amr.Or([]), step.ip);
    }
  }

  lemma OAuthStamped(cfg: Config, s: State, step: Step, i: nat)
    requires step.OAuthCallback? && i < |OAuthLogin(cfg, s, step)|
    ensures StampOk(s.log, OAuthLogin(cfg, s, step)[i])
  {
    SessionStamp(cfg, s, step.w, step.user, step.tenant, ["oauth"], "");
  }

  lemma OutcomeStamped(cfg: Config, s: State, step: Step, i: nat)
    requires LogOk(cfg, s.log) && Enabled(s, step) && i < |Outcome(cfg, s, step)|
    ensures StampOk(s.log, Outcome(cfg, s, step)[i])
  {
    match step
    case Login(_, _, _, _, _, _) => LoginStamped(cfg, s, step, i);
    case KeyLogin(_, _, _, _, _, _) => KeyLoginStamped(cfg, s, step, i);
    case CompleteFactor(_, _, _, _, _) => FactorStamped(cfg, s, step, i);
    case OAuthCallback(_, _, _, _) => OAuthStamped(cfg, s, step, i);
    case Exchange(_, _, _, _, _) => ExchangeStamped(cfg, s, step, i);
    case Refresh(_, _, _) => RefreshStamped(cfg, s, step, i);
    case Handoff(_, _) => HandoffStamped(cfg, s, step, i);
    case Redeem(_, _, _, _) => RedeemStamped(cfg, s, step, i);
    case _ =>
  }

  // ---- every run -----------------------------------------------------------------------------

  lemma StampStays(log: seq<Event>, more: seq<Event>, e: Event)
    requires StampOk(log, e)
    ensures StampOk(log + more, e)
  {
    assert forall p: nat :: p < |log| ==> (log + more)[p] == log[p];
  }

  lemma StampedGrows(log: seq<Event>, more: seq<Event>)
    requires AllStamped(log) && forall i: nat :: i < |more| ==> StampOk(log, more[i])
    ensures AllStamped(log + more)
  {
    forall i: nat | i < |log + more| ensures StampOk(log + more, (log + more)[i]) {
      if i < |log| {
        StampStays(log, more, log[i]);
      } else {
        StampStays(log, more, more[i - |log|]);
      }
    }
  }

  lemma {:induction false} RunStamped(cfg: Config, s: State, steps: seq<Step>)
    requires LogOk(cfg, s.log) && AllStamped(s.log) && ValidRun(cfg, s, steps)
    ensures AllStamped(Exec(cfg, s, steps).log)
    decreases |steps|
  {
    if steps == [] {
    } else {
      var step := steps[0];
      forall i: nat | i < |Outcome(cfg, s, step)| ensures StampOk(s.log, Outcome(cfg, s, step)[i]) {
        OutcomeStamped(cfg, s, step, i);
      }
      StampedGrows(s.log, Outcome(cfg, s, step));
      NextKeepsLog(cfg, s, step);
      RunStamped(cfg, Next(cfg, s, step), steps[1..]);
    }
  }

  /**
    In every run, a session or service token with any roles at all passes its own membership check:
    presented without an X-Tenant it is refused only by the denylist or the second-factor demand.
  */
  lemma SessionOpensWhereStamped(cfg: Config, s0: State, steps: seq<Step>, i: nat)
    requires Initial(s0) && ValidRun(cfg, s0, steps) && IsIssued(Exec(cfg, s0, steps).log, i)
    requires Exec(cfg, s0, steps).log[i].claims.roles != Some(map[]) && Exec(cfg, s0, steps).log[i].claims.tenant != ""
    ensures var c := Exec(cfg, s0, steps).log[i].claims;
            && BearerDoor(c, true, "", false, false).Some?
            && BearerDoor(c, true, "", false, false).value.tenant == c.tenant
  {
    RunStamped(cfg, s0, steps);
    ReachableLog(cfg, s0, steps);
    var log := Exec(cfg, s0, steps).log;
    assert StampOk(log, log[i]) && EntryOk(cfg, log, i);
  }

  /**
    A redeemed session is for its code's tenant exactly when its roles include that tenant or are
    empty; and the code's tenant was one its own parent session held roles in.
  */
  lemma RedeemedTenantIff(cfg: Config, s0: State, steps: seq<Step>, i: nat)
    requires Initial(s0) && ValidRun(cfg, s0, steps)
    requires var log := Exec(cfg, s0, steps).log; i < |log| && log[i].Minted? && log[i].origin.Redeemed?
    ensures var log := Exec(cfg, s0, steps).log;
            var c, p := log[i].claims, log[i].origin.code;
            && p < i && log[p].Minted? && log[p].origin.HandedOff?
            && c.roles.Some?
            && (c.tenant == log[p].claims.tenant <==> c.roles.value == map[] || log[p].claims.tenant in c.roles.value)
            && (log[p].origin.parent.Some? ==>
                  var q := log[p].origin.parent.value;
                  q < p && log[q].Minted? && TokenTenantMember(log[q].claims, log[p].claims.tenant))
  {
    RunStamped(cfg, s0, steps);
    ReachableLog(cfg, s0, steps);
    var log := Exec(cfg, s0, steps).log;
    var p := log[i].origin.code;
    assert StampOk(log, log[i]) && EntryOk(cfg, log, i);
    assert StampOk(log, log[p]) && EntryOk(cfg, log, p);
  }
}
