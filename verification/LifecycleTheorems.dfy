/**
  What every run of the credential life cycle keeps: lineage, key confinement, second-factor
  provenance, kinds and doors, and write-ahead audit.
*/
module LifecycleTheorems {
  import opened Credentials
  import opened Lifecycle
  import G = ReplayGuard

  // ---- the invariant: each log entry is justified by what precedes it -------------------

  predicate IsMinted(log: seq<Event>, i: nat, k: Kind) {
    i < |log| && log[i].Minted? && log[i].kind == k
  }

  /** A credential the bearer door takes: a user session or a service token. */
  predicate IsIssued(log: seq<Event>, i: nat) {
    IsMinted(log, i, Session) || IsMinted(log, i, Service)
  }

  predicate IsSuccess(e: Event) {
    e.Audited? && e.ok && e.action in {LoginSuccess, MfaSuccess, TokenRefresh, SsoRedeem, IntegrationExchange}
  }

  predicate WriteAheadOk(cfg: Config, log: seq<Event>, i: nat)
    requires i < |log| && log[i].Minted?
  {
    cfg.auditEnabled ==> i > 0 && IsSuccess(log[i - 1]) && log[i - 1].actor == log[i].claims.sub
  }

  predicate Unbound(c: Claims) { c.skid.None? && c.skgen.None? }

  predicate SameBinding(a: Claims, b: Claims) {
    a.sub == b.sub && a.tenant == b.tenant && a.skid == b.skid && a.skgen == b.skgen
  }

  predicate KeyBound(c: Claims) {
    && c.skid.Or("") != "" && c.skgen.Or("") != "" && c.amr == Some(["svc"])
    && c.roles.Some? && c.roles.value.Keys <= {c.tenant}
  }

  predicate RefreshOk(p: Claims, c: Claims) {
    c.sub == p.sub &&
    if p.skid.Or("") != "" then SameBinding(p, c) && KeyBound(c)
    else Unbound(c) && c.amr == Some(if p.amr.Or([]) == [] then ["pwd"] else p.amr.Or([]))
  }

  predicate OriginOk(log: seq<Event>, i: nat)
    requires i < |log| && log[i].Minted?
  {
    var c, k := log[i].claims, log[i].kind;
    match log[i].origin
    case PasswordLogin => k == Session && Unbound(c) && c.amr == Some(["pwd"])
    case Challenged => k == Pending
    case SecondFactorVerified(p, m) =>
      && k == Session && Unbound(c) && c.amr == Some(["pwd", m])
      && p < i && IsMinted(log, p, Pending) && log[p].claims.sub == c.sub
    case Enrolled(p) =>
      && k == Session && Unbound(c) && c.amr == Some(["pwd", "totp"])
      && p < i && IsMinted(log, p, Pending) && log[p].claims.sub == c.sub
    case Federated => k == Session && Unbound(c) && c.amr == Some(["oauth"])
    case KeyPresented(id) => k == Session && c.skid == Some(id) && KeyBound(c)
    case Asserted(a, _) =>
      && c.sub == a.sub
      && (k == Session || k == Service) && Unbound(c)
      && c.amr == Some(if k == Service then ["integration"] else a.amr + ["integration"])
    case Refreshed(p) =>
      && k == Session
      && (p.None? ==> Unbound(c) && c.amr == Some(["pwd"]))
      && (p.Some? ==> p.value < i && IsIssued(log, p.value) && RefreshOk(log[p.value].claims, c))
    case HandedOff(p) =>
      && k == Kind.Handoff
      && (p.None? ==> c.amr == Some([]))
      && (p.Some? ==> p.value < i && IsIssued(log, p.value) && log[p.value].claims.skid.None?
                      && c.sub == log[p.value].claims.sub && c.amr.Or([]) == log[p.value].claims.amr.Or([]))
    case Redeemed(p, _) =>
      k == Session && Unbound(c) && p < i && IsMinted(log, p, Kind.Handoff) && c.sub == log[p].claims.sub
      && c.amr == Some(["sso"] + log[p].claims.amr.Or([])) && log[i].at < log[p].claims.exp
    case Ticketed(p, id, uid) =>
      && k == Ticket && id.tenant != ""
      && IsTicketType(c.typ.Or(""))
      && c == TicketClaims(id, uid, c.typ.Or(""), c.mt.Or(""), log[i].at, c.exp - log[i].at)
      && (p.Some? ==> p.value < i && IsIssued(log, p.value) && id == IdentityFromClaims(log[p.value].claims, id.tenant)
                      && TokenTenantMember(log[p.value].claims, id.tenant))
  }

  predicate ServedOk(cfg: Config, log: seq<Event>, i: nat)
    requires i < |log| && log[i].Served?
  {
    var e := log[i];
    e.token.Some? ==>
      && e.token.value < i && log[e.token.value].Minted? && e.id.user == log[e.token.value].claims.sub
      && (log[e.token.value].kind == Ticket || IsIssued(log, e.token.value))
      && TokenTenantMember(log[e.token.value].claims, e.id.tenant)
      && (cfg.mfaEnabled && e.demands2fa ==> SatisfiesSecondFactor(log[e.token.value].claims.amr.Or([])))
  }

  predicate EntryOk(cfg: Config, log: seq<Event>, i: nat)
    requires i < |log|
  {
    match log[i]
    case Audited(_, _, _, _) => true
    case Served(_, _, _) => ServedOk(cfg, log, i)
    case Minted(c, k, _, at) =>
      && HasKind(c, k) && OriginOk(log, i)
      && (k == Session || k == Service ==> c.exp == at + cfg.tokenTtl && WriteAheadOk(cfg, log, i))
  }

  ghost predicate LogOk(cfg: Config, log: seq<Event>) {
    forall i: nat :: i < |log| ==> EntryOk(cfg, log, i)
  }

  lemma EntryStays(cfg: Config, log: seq<Event>, e: Event, i: nat)
    requires i < |log| && EntryOk(cfg, log, i)
    ensures EntryOk(cfg, log + [e], i)
  {
    assert forall m: nat :: m < |log| ==> (log + [e])[m] == log[m];
  }

  lemma AppendOk(cfg: Config, log: seq<Event>, e: Event)
    requires LogOk(cfg, log) && EntryOk(cfg, log + [e], |log|)
    ensures LogOk(cfg, log + [e])
  {
    forall i: nat | i < |log + [e]| ensures EntryOk(cfg, log + [e], i) {
      if i < |log| { EntryStays(cfg, log, e, i); }
    }
  }

  lemma EmitKeeps(cfg: Config, log: seq<Event>, w: World, action: Action, ok: bool, actor: string, tenant: string)
    requires LogOk(cfg, log)
    ensures LogOk(cfg, log + Emit(cfg, w, action, ok, actor, tenant))
  {
    if cfg.auditEnabled && w.auditUp {
      AppendOk(cfg, log, Audited(action, ok, actor, tenant));
    } else {
      assert log + [] == log;
    }
  }

  /** A mint right after its accepted audit event. */
  lemma AuditedMintKeeps(cfg: Config, log: seq<Event>, w: World, action: Action, tenant: string, e: Event)
    requires LogOk(cfg, log) && EmitOk(cfg, w) && e.Minted?
    requires IsSuccess(Audited(action, true, e.claims.sub, tenant))
    requires HasKind(e.claims, e.kind) && (e.kind == Session || e.kind == Service)
    requires e.claims.exp == e.at + cfg.tokenTtl
    requires OriginOk(log + [e], |log|)
    ensures LogOk(cfg, log + (Emit(cfg, w, action, true, e.claims.sub, tenant) + [e]))
  {
    var audit := Emit(cfg, w, action, true, e.claims.sub, tenant);
    EmitKeeps(cfg, log, w, action, true, e.claims.sub, tenant);
    var full := log + audit;
    assert forall m: nat :: m < |log| ==> (full + [e])[m] == log[m] == (log + [e])[m];
    assert OriginOk(full + [e], |full|);
    AppendOk(cfg, full, e);
    assert log + (audit + [e]) == full + [e];
  }

  lemma MintKeeps(cfg: Config, log: seq<Event>, e: Event)
    requires LogOk(cfg, log) && e.Minted? && HasKind(e.claims, e.kind) && e.kind != Session && e.kind != Service
    requires OriginOk(log + [e], |log|)
    ensures LogOk(cfg, log + [e])
  {
    AppendOk(cfg, log, e);
  }

  // ---- handler by handler ------------------------------------------------------------------

  lemma ChallengeKeeps(cfg: Config, s: State, w: World, user: string, tenant: string, ip: string)
    requires LogOk(cfg, s.log)
    ensures var audit := Emit(cfg, w, LoginSuccess, true, user, tenant);
            var c := PendingClaims(user, tenant, ip, w.jti, s.now, cfg.mfaChallengeTtl);
            var e := Minted(c, Pending, Challenged, s.now);
            var after := Emit(cfg, w.(auditUp := w.auditAfter), MfaChallenge, true, user, tenant);
            LogOk(cfg, s.log + audit) && LogOk(cfg, s.log + (audit + [e] + after))
  {
    var audit := Emit(cfg, w, LoginSuccess, true, user, tenant);
    var c := PendingClaims(user, tenant, ip, w.jti, s.now, cfg.mfaChallengeTtl);
    var e := Minted(c, Pending, Challenged, s.now);
    var after := Emit(cfg, w.(auditUp := w.auditAfter), MfaChallenge, true, user, tenant);
    EmitKeeps(cfg, s.log, w, LoginSuccess, true, user, tenant);
    MintKeeps(cfg, s.log + audit, e);
    EmitKeeps(cfg, s.log + audit + [e], w.(auditUp := w.auditAfter), MfaChallenge, true, user, tenant);
    assert s.log + (audit + [e] + after) == s.log + audit + [e] + after;
  }

  lemma IssueTokenKeeps(cfg: Config, s: State, step: Step)
    requires LogOk(cfg, s.log) && step.Login?
    ensures LogOk(cfg, s.log + IssueToken(cfg, s, step))
  {
    var w := step.w;
    if step.bound.None? {
      EmitKeeps(cfg, s.log, w, LoginFailure, false, step.attempted, step.tenant);
    } else {
      var user := step.bound.value.user;
      var asked := if step.tenant == "" then "default" else step.tenant;
      if !w.gate {
        EmitKeeps(cfg, s.log, w, LoginDenied, false, user, asked);
      } else if w.tenants == [] {
        EmitKeeps(cfg, s.log, w, LoginFailure, false, user, asked);
      } else if !EmitOk(cfg, w) {
        assert s.log + [] == s.log;
      } else {
        var tenant := if asked in w.tenants then asked else w.tenants[0];
        if cfg.mfaEnabled && (step.mfa.None? || step.mfa.value) {
          ChallengeKeeps(cfg, s, w, user, tenant, step.ip);
        } else {
          AuditedMintKeeps(cfg, s.log, w, LoginSuccess, tenant,
                           Minted(SessionFor(cfg, s, w, user, tenant, ["pwd"], ""), Session, PasswordLogin, s.now));
        }
      }
    }
  }

  lemma IssueServiceKeyTokenKeeps(cfg: Config, s: State, step: Step)
    requires LogOk(cfg, s.log) && step.KeyLogin? && Enabled(s, step)
    ensures LogOk(cfg, s.log + IssueServiceKeyToken(cfg, s, step))
  {
    var w := step.w;
    var tenant := if step.tenant == "" then "default" else step.tenant;
    var a := AskKey(s, step.keyId, tenant, step.secretGood, step.fault);
    var v := ClassifyVerifyAnswer(a.status, a.uid, a.generation);
    assert s.log + [] == s.log;
    assert step.keyId != "" by { assert |"fesk_"| == 5; }
    if !w.gate {
      EmitKeeps(cfg, s.log, w, LoginDenied, false, step.keyId, tenant);
    } else if !step.secretGiven || v.Invalid? {
      EmitKeeps(cfg, s.log, w, LoginFailure, false, step.keyId, tenant);
    } else if v.Valid? && tenant !in w.tenants {
      EmitKeeps(cfg, s.log, w, LoginFailure, false, a.uid, tenant);
    } else if v.Valid? && EmitOk(cfg, w) {
      KeySessionIsConfined(a.uid, tenant, ["svc"], w.byTenant, w.jti, "", step.keyId, a.generation,
                           s.now, cfg.tokenTtl);
      AuditedMintKeeps(
        cfg, s.log, w, LoginSuccess, tenant,
        Minted(SessionClaims(a.uid, tenant, ["svc"], w.byTenant, w.jti, "", step.keyId, a.generation,
                             s.now, cfg.tokenTtl),
               Session, KeyPresented(step.keyId), s.now));
    }
  }

  lemma VerifyMfaKeeps(cfg: Config, s: State, step: Step)
    requires LogOk(cfg, s.log) && step.CompleteFactor?
    ensures LogOk(cfg, s.log + VerifyMfa(cfg, s, step))
  {
    var w := step.w;
    var v := VerifyToken(s, step.token);
    assert s.log + [] == s.log;
    if v.Some? && v.value.mfaPending {
      var c := v.value;
      assert EntryOk(cfg, s.log, step.token);
      if !SecondFactorDoor(c, step.ip) || !step.good {
        EmitKeeps(cfg, s.log, w, MfaFailure, false, if c.sub == "" then "<unknown>" else c.sub, c.tenant);
      } else if EmitOk(cfg, w) {
        var means := if step.factor.EnrolComplete? || step.factor.means == "" then "totp" else step.factor.means;
        var o := if step.factor.EnrolComplete? then Enrolled(step.token) else SecondFactorVerified(step.token, means);
        AuditedMintKeeps(cfg, s.log, w, MfaSuccess, c.tenant,
                         Minted(SessionFor(cfg, s, w, c.sub, c.tenant, ["pwd", means], ""), Session, o, s.now));
      }
    }
  }

  lemma OAuthLoginKeeps(cfg: Config, s: State, step: Step)
    requires LogOk(cfg, s.log) && step.OAuthCallback?
    ensures LogOk(cfg, s.log + OAuthLogin(cfg, s, step))
  {
    var w := step.w;
    assert s.log + [] == s.log;
    if step.user == "" {
      EmitKeeps(cfg, s.log, w, LoginFailure, false, step.email, step.tenant);
    } else if EmitOk(cfg, w) {
      AuditedMintKeeps(cfg, s.log, w, LoginSuccess, step.tenant,
                       Minted(SessionFor(cfg, s, w, step.user, step.tenant, ["oauth"], ""), Session, Federated, s.now));
    }
  }

  lemma AuthExchangeKeeps(cfg: Config, s: State, step: Step)
    requires LogOk(cfg, s.log) && step.Exchange?
    ensures LogOk(cfg, s.log + AuthExchange(cfg, s, step))
  {
    var w, a := step.w, step.assertion;
    assert s.log + [] == s.log;
    if !AssertionStands(s, step) {
      EmitKeeps(cfg, s.log, w, IntegrationExchange, false, cfg.integrationIssuer, "");
    } else if !G.Accepts(GuardOf(s.assertionSeen, step.inst), a.jti, s.now) {
      EmitKeeps(cfg, s.log, w, IntegrationExchange, false, cfg.integrationIssuer, a.tenant);
    } else if a.tokenType == "service" {
      if EmitOk(cfg, w) {
        AuditedMintKeeps(
          cfg, s.log, w, IntegrationExchange, a.tenant,
          Minted(ServiceClaims(a.sub, a.tenant, cfg.serviceRoles, step.ip, a.scope, w.jti, s.now, cfg.tokenTtl),
                 Service, Asserted(a, step.inst), s.now));
      }
    } else if w.tenants == [] {
      EmitKeeps(cfg, s.log, w, IntegrationExchange, false, a.sub, a.tenant);
    } else if EmitOk(cfg, w) {
      var tenant := if a.tenant != "" && a.tenant in w.tenants then a.tenant else w.tenants[0];
      AuditedMintKeeps(
        cfg, s.log, w, IntegrationExchange, tenant,
        Minted(SessionFor(cfg, s, w, a.sub, tenant, a.amr + ["integration"], step.ip),
               Session, Asserted(a, step.inst), s.now));
    }
  }

  /** What the bearer door and Basic hand to a route. */
  lemma AuthenticateGives(cfg: Config, s: State, auth: Auth, w: World)
    requires LogOk(cfg, s.log) && Authenticate(cfg, s, auth, w).Some?
    ensures var id := Authenticate(cfg, s, auth, w).value;
            && id.tenant != ""
            && (auth.Basic? ==> id.amr == [] && id.keyId == "")
            && (auth.Token? ==>
                  && IsIssued(s.log, auth.token) && TokenTenantMember(s.log[auth.token].claims, id.tenant)
                  && id == IdentityFromClaims(s.log[auth.token].claims, id.tenant)
                  && (cfg.mfaEnabled && w.demands2fa ==> SatisfiesSecondFactor(id.amr)))
  {
    if auth.Token? {
      assert EntryOk(cfg, s.log, auth.token);
      var c := s.log[auth.token].claims;
      assert BearerDoor(c, w.permits, auth.xTenant, cfg.mfaEnabled, w.demands2fa).Some?;
      KindsNeverCross(c, s.log[auth.token].kind, Bearer);
    }
  }

  /** An issued credential is either key-bound or carries no key claims at all. */
  lemma IssuedBinding(cfg: Config, log: seq<Event>, i: nat)
    requires LogOk(cfg, log) && IsIssued(log, i)
    ensures log[i].claims.skid.Or("") != "" ==> KeyBound(log[i].claims)
    ensures log[i].claims.skid.Or("") == "" ==> log[i].claims.skid.None?
    ensures log[i].claims.skid.None? && log[i].kind == Session ==> Unbound(log[i].claims)
  {
    assert EntryOk(cfg, log, i);
  }

  lemma KeyRefreshKeeps(cfg: Config, s: State, step: Step, id: Identity)
    requires LogOk(cfg, s.log) && step.Refresh? && Authenticate(cfg, s, step.auth, step.w) == Some(id) && id.keyId != ""
    ensures LogOk(cfg, s.log + RefreshServiceKeyToken(cfg, s, step, id))
  {
    var w := step.w;
    var a := AskKey(s, id.keyId, id.tenant, true, step.fault);
    var v := ClassifyVerifyAnswer(a.status, a.uid, a.generation);
    assert s.log + [] == s.log;
    AuthenticateGives(cfg, s, step.auth, w);
    IssuedBinding(cfg, s.log, step.auth.token);
    if !v.Unavailable? && !MayRefresh(v, a.uid, a.generation, id.user, id.keyGen, w.tenants, id.tenant) {
      EmitKeeps(cfg, s.log, w, TokenRefresh, false, id.user, id.tenant);
    } else if !v.Unavailable? && EmitOk(cfg, w) {
      var c := SessionClaims(id.user, id.tenant, ["svc"], w.byTenant, w.jti, "", id.keyId, id.keyGen,
                             s.now, cfg.tokenTtl);
      KeySessionIsConfined(id.user, id.tenant, ["svc"], w.byTenant, w.jti, "", id.keyId, id.keyGen,
                           s.now, cfg.tokenTtl);
      assert RefreshOk(s.log[step.auth.token].claims, c);
      AuditedMintKeeps(cfg, s.log, w, TokenRefresh, id.tenant,
                       Minted(c, Session, Refreshed(ParentOf(step.auth)), s.now));
    }
  }

  lemma RefreshTokenKeeps(cfg: Config, s: State, step: Step)
    requires LogOk(cfg, s.log) && step.Refresh?
    ensures LogOk(cfg, s.log + RefreshToken(cfg, s, step))
  {
    var w := step.w;
    var who := Authenticate(cfg, s, step.auth, w);
    assert s.log + [] == s.log;
    if who.Some? && who.value.keyId != "" {
      KeyRefreshKeeps(cfg, s, step, who.value);
    } else if who.Some? {
      var id := who.value;
      AuthenticateGives(cfg, s, step.auth, w);
      if step.auth.Token? { IssuedBinding(cfg, s.log, step.auth.token); }
      if w.tenants == [] {
        EmitKeeps(cfg, s.log, w, TokenRefresh, false, id.user, id.tenant);
      } else if EmitOk(cfg, w) {
        var tenant := if id.tenant in w.tenants then id.tenant else w.tenants[0];
        AuditedMintKeeps(
          cfg, s.log, w, TokenRefresh, tenant,
          Minted(SessionFor(cfg, s, w, id.user, tenant, if id.amr == [] then ["pwd"] else id.amr, ""),
                 Session, Refreshed(ParentOf(step.auth)), s.now));
      }
    }
  }

  lemma HandoffCodeKeeps(cfg: Config, s: State, step: Step)
    requires LogOk(cfg, s.log) && step.Handoff? && step.w.jti != ""
    ensures LogOk(cfg, s.log + HandoffCode(cfg, s, step))
  {
    var w := step.w;
    var who := Authenticate(cfg, s, step.auth, w);
    assert s.log + [] == s.log;
    if who.Some? {
      var id := who.value;
      AuthenticateGives(cfg, s, step.auth, w);
      if step.auth.Token? { IssuedBinding(cfg, s.log, step.auth.token); }
      if id.keyId != "" {
        EmitKeeps(cfg, s.log, w, SsoHandoff, false, id.user, id.tenant);
      } else {
        var e := Minted(HandoffClaims(id.user, id.tenant, w.jti, s.now, cfg.handoffTtl, id.amr), Kind.Handoff,
                        HandedOff(ParentOf(step.auth)), s.now);
        MintKeeps(cfg, s.log, e);
        EmitKeeps(cfg, s.log + [e], w, SsoHandoff, true, id.user, id.tenant);
        assert s.log + ([e] + Emit(cfg, w, SsoHandoff, true, id.user, id.tenant))
            == s.log + [e] + Emit(cfg, w, SsoHandoff, true, id.user, id.tenant);
      }
    }
  }

  lemma RedeemCodeKeeps(cfg: Config, s: State, step: Step)
    requires LogOk(cfg, s.log) && step.Redeem?
    ensures LogOk(cfg, s.log + RedeemCode(cfg, s, step))
  {
    var w := step.w;
    var v := CodeOf(s, step.code);
    assert s.log + [] == s.log;
    if v.Some? && v.value.sub != "" && EmitOk(cfg, w) {
      var c := v.value;
      assert EntryOk(cfg, s.log, step.code);
      KindsNeverCross(c, s.log[step.code].kind, Door.Redeem);
      AuditedMintKeeps(
        cfg, s.log, w, SsoRedeem, c.tenant,
        Minted(SessionFor(cfg, s, w, c.sub, c.tenant, ["sso"] + c.amr.Or([]), step.ip), Session,
               Redeemed(step.code, step.inst), s.now));
    }
  }

  lemma TicketMintKeeps(
      cfg: Config, log: seq<Event>, id: Identity, parent: Option<nat>, uid: string, typ: string, mt: string,
      now: int, ttl: int)
    requires LogOk(cfg, log) && IsTicketType(typ) && id.tenant != ""
    requires parent.Some? ==>
               && IsIssued(log, parent.value) && id == IdentityFromClaims(log[parent.value].claims, id.tenant)
               && TokenTenantMember(log[parent.value].claims, id.tenant)
    ensures LogOk(cfg, log + [Minted(TicketClaims(id, uid, typ, mt, now, ttl), Ticket, Ticketed(parent, id, uid), now)])
  {
    MintKeeps(cfg, log, Minted(TicketClaims(id, uid, typ, mt, now, ttl), Ticket, Ticketed(parent, id, uid), now));
  }

  lemma TicketForKeeps(cfg: Config, s: State, step: Step)
    requires LogOk(cfg, s.log) && step.MintTicket?
    ensures LogOk(cfg, s.log + TicketFor(cfg, s, step))
  {
    var who := Authenticate(cfg, s, step.auth, step.w);
    assert s.log + [] == s.log;
    if who.Some? {
      AuthenticateGives(cfg, s, step.auth, step.w);
      var typ := if step.mediaType.Some? then "playback" else "download";
      var ttl := if step.mediaType.Some? then ClampPlaybackTtl(cfg.playbackTicketTtl) else cfg.downloadTicketTtl;
      TicketMintKeeps(cfg, s.log, who.value, ParentOf(step.auth), step.uid, typ, step.mediaType.Or(""), s.now, ttl);
    }
  }

  lemma ResourceRequestKeeps(cfg: Config, s: State, step: Step)
    requires LogOk(cfg, s.log) && step.Access?
    ensures LogOk(cfg, s.log + ResourceRequest(cfg, s, step))
  {
    var who := Authenticate(cfg, s, step.auth, step.w);
    assert s.log + [] == s.log;
    if who.Some? {
      AuthenticateGives(cfg, s, step.auth, step.w);
      AppendOk(cfg, s.log, Served(who.value, ParentOf(step.auth), step.w.demands2fa));
    }
  }

  lemma TicketedContentKeeps(cfg: Config, s: State, step: Step)
    requires LogOk(cfg, s.log) && step.TicketAccess?
    ensures LogOk(cfg, s.log + TicketedContent(s, step))
  {
    var v := VerifyToken(s, step.token);
    assert s.log + [] == s.log;
    if v.Some? && TicketDoor(v.value, step.uid, step.w.permits, step.w.gate).Some? {
      assert EntryOk(cfg, s.log, step.token);
      KindsNeverCross(v.value, s.log[step.token].kind, Content);
      assert OriginOk(s.log, step.token);
      var who := TicketDoor(v.value, step.uid, step.w.permits, step.w.gate).value;
      AppendOk(cfg, s.log, Served(who, Some(step.token), false));
    }
  }

  lemma NextKeepsLog(cfg: Config, s: State, step: Step)
    requires LogOk(cfg, s.log) && Enabled(s, step)
    ensures LogOk(cfg, Next(cfg, s, step).log)
  {
    match step
    case Login(_, _, _, _, _, _) => IssueTokenKeeps(cfg, s, step);
    case KeyLogin(_, _, _, _, _, _) => IssueServiceKeyTokenKeeps(cfg, s, step);
    case CompleteFactor(_, _, _, _, _) => VerifyMfaKeeps(cfg, s, step);
    case OAuthCallback(_, _, _, _) => OAuthLoginKeeps(cfg, s, step);
    case Exchange(_, _, _, _, _) => AuthExchangeKeeps(cfg, s, step);
    case Refresh(_, _, _) => RefreshTokenKeeps(cfg, s, step);
    case Handoff(_, _) => HandoffCodeKeeps(cfg, s, step);
    case Redeem(_, _, _, _) => RedeemCodeKeeps(cfg, s, step);
    case MintTicket(_, _, _, _) => TicketForKeeps(cfg, s, step);
    case Access(_, _) => ResourceRequestKeeps(cfg, s, step);
    case TicketAccess(_, _, _) => TicketedContentKeeps(cfg, s, step);
    case _ => assert s.log + [] == s.log;
  }

  /** In every run, each entry of the log is justified by what precedes it. */
  lemma {:induction false} RunKeepsLog(cfg: Config, s: State, steps: seq<Step>)
    requires LogOk(cfg, s.log) && ValidRun(cfg, s, steps)
    ensures LogOk(cfg, Exec(cfg, s, steps).log)
    decreases |steps|
  {
    if steps == [] {
    } else {
      NextKeepsLog(cfg, s, steps[0]);
      RunKeepsLog(cfg, Next(cfg, s, steps[0]), steps[1..]);
    }
  }

  /** A run only ever appends to the log. */
  lemma {:induction false} LogExtends(cfg: Config, s: State, steps: seq<Step>)
    ensures s.log <= Exec(cfg, s, steps).log
    decreases |steps|
  {
    if steps == [] {
    } else {
      LogExtends(cfg, Next(cfg, s, steps[0]), steps[1..]);
      assert s.log <= Next(cfg, s, steps[0]).log;
    }
  }

  lemma ReachableLog(cfg: Config, s0: State, steps: seq<Step>)
    requires Initial(s0) && ValidRun(cfg, s0, steps)
    ensures LogOk(cfg, Exec(cfg, s0, steps).log)
  {
    RunKeepsLog(cfg, s0, steps);
  }

  // ---- lineage ------------------------------------------------------------------------------

  function ParentIndex(o: Origin): Option<nat> {
    match o
    case Refreshed(p) => p
    case HandedOff(p) => p
    case Redeemed(p, _) => Some(p)
    case Ticketed(p, _, _) => p
    case _ => None
  }

  /** The credential a lineage started from, followed through refresh, hand-off, redeem and ticket. */
  function Root(log: seq<Event>, i: nat): (r: nat)
    ensures r <= i
    decreases i
  {
    if i < |log| && log[i].Minted? && ParentIndex(log[i].origin).Some? && ParentIndex(log[i].origin).value < i
    then Root(log, ParentIndex(log[i].origin).value) else i
  }

  /** Every credential names the user its lineage began with. */
  lemma {:induction false} LineageKeepsUser(cfg: Config, log: seq<Event>, i: nat)
    requires LogOk(cfg, log) && i < |log| && log[i].Minted?
    ensures log[Root(log, i)].Minted? && log[Root(log, i)].claims.sub == log[i].claims.sub
    ensures ParentIndex(log[Root(log, i)].origin).None?
    decreases i
  {
    assert EntryOk(cfg, log, i);
    var p := ParentIndex(log[i].origin);
    if p.Some? { LineageKeepsUser(cfg, log, p.value); }
  }

  // ---- key sessions ---------------------------------------------------------------------------

  /** In a lineage begun by a key, everything is for the key's user and tenant and nothing is a hand-off code. */
  lemma {:induction false} KeyLineage(cfg: Config, log: seq<Event>, i: nat)
    requires LogOk(cfg, log) && i < |log| && log[i].Minted? && log[Root(log, i)].Minted?
    requires log[Root(log, i)].origin.KeyPresented?
    ensures var root, c := log[Root(log, i)].claims, log[i].claims;
            && c.sub == root.sub && c.tenant == root.tenant
            && (log[i].kind == Session || log[i].kind == Ticket)
            && (log[i].kind == Session ==> SameBinding(c, root) && KeyBound(c))
    decreases i
  {
    assert EntryOk(cfg, log, i);
    var p := ParentIndex(log[i].origin);
    if p.Some? { KeyLineage(cfg, log, p.value); }
  }

  lemma {:induction false} KeyedComesFromKey(cfg: Config, log: seq<Event>, i: nat)
    requires LogOk(cfg, log) && IsMinted(log, i, Session) && log[i].claims.skid.Or("") != ""
    ensures log[Root(log, i)].Minted? && log[Root(log, i)].origin.KeyPresented?
    decreases i
  {
    assert EntryOk(cfg, log, i);
    var o := log[i].origin;
    if o.Refreshed? && o.parent.Some? {
      IssuedBinding(cfg, log, o.parent.value);
      assert EntryOk(cfg, log, o.parent.value);
      KeyedComesFromKey(cfg, log, o.parent.value);
    }
  }

  /**
    Key-session confinement over whole chains. A session carries a key binding exactly when its
    lineage began with that key, and then user, tenant, key id and secret generation are those
    of that first session and its roles are in that tenant only. No request, whatever its
    X-Tenant, leads from it to another tenant, to an unbound session or to a hand-off code.
  */
  lemma KeyConfinement(cfg: Config, s0: State, steps: seq<Step>, i: nat)
    requires Initial(s0) && ValidRun(cfg, s0, steps)
    requires var log := Exec(cfg, s0, steps).log; i < |log| && log[i].Minted?
    ensures var log := Exec(cfg, s0, steps).log;
            var r := Root(log, i);
            && log[r].Minted?
            && (log[i].kind == Session ==> (log[i].claims.skid.Some? <==> log[r].origin.KeyPresented?))
            && (log[r].origin.KeyPresented? ==>
                  && log[i].claims.sub == log[r].claims.sub && log[i].claims.tenant == log[r].claims.tenant
                  && (log[i].kind == Session || log[i].kind == Ticket)
                  && (log[i].kind == Session ==> SameBinding(log[i].claims, log[r].claims) && KeyBound(log[i].claims)))
  {
    ReachableLog(cfg, s0, steps);
    var log := Exec(cfg, s0, steps).log;
    LineageKeepsUser(cfg, log, i);
    if log[Root(log, i)].origin.KeyPresented? { KeyLineage(cfg, log, i); }
    if log[i].kind == Session {
      IssuedBinding(cfg, log, i);
      if log[i].claims.skid.Or("") != "" { KeyedComesFromKey(cfg, log, i); }
    }
  }

  /** Whatever a key's session or ticket is presented for, what is served is the key's user in the key's tenant. */
  lemma KeyServesOneTenant(cfg: Config, s0: State, steps: seq<Step>, i: nat)
    requires Initial(s0) && ValidRun(cfg, s0, steps)
    requires var log := Exec(cfg, s0, steps).log;
             && i < |log| && log[i].Served? && log[i].token.Some?
             && var r := Root(log, log[i].token.value);
             r < |log| && log[r].Minted? && log[r].origin.KeyPresented?
    ensures var log := Exec(cfg, s0, steps).log;
            var root := log[Root(log, log[i].token.value)].claims;
            log[i].id.user == root.sub && log[i].id.tenant == root.tenant
  {
    ReachableLog(cfg, s0, steps);
    var log := Exec(cfg, s0, steps).log;
    assert EntryOk(cfg, log, i);
    var t := log[i].token.value;
    KeyLineage(cfg, log, t);
    assert EntryOk(cfg, log, t);
  }

  // ---- second factor ----------------------------------------------------------------------------

  /** The events that establish a second factor. */
  predicate Establishes(e: Event)
    requires e.Minted?
  {
    match e.origin
    case SecondFactorVerified(_, m) => IsSecondFactor(m)
    case Enrolled(_) => true
    case Federated => true
    case KeyPresented(_) => true
    case Asserted(a, _) => e.kind == Session && SatisfiesSecondFactor(a.amr)
    case _ => false
  }

  function Methods(log: seq<Event>, i: nat): seq<string> {
    if i < |log| && log[i].Minted? then log[i].claims.amr.Or([]) else []
  }

  /** Sessions, service tokens and hand-off codes carry authentication methods onward. */
  predicate CarriesMethods(log: seq<Event>, i: nat) {
    IsIssued(log, i) || IsMinted(log, i, Kind.Handoff)
  }

  lemma PairMethods(m: string)
    ensures SatisfiesSecondFactor(["pwd", m]) <==> IsSecondFactor(m)
  {
    WeakMethods();
    assert ["pwd", m] == ["pwd"] + [m];
    SecondFactorOfConcat(["pwd"], [m]);
    SecondFactorOfOne("pwd");
    SecondFactorOfOne(m);
  }

  /** What a session or code says about itself at the start of a lineage. */
  lemma RootMethods(cfg: Config, log: seq<Event>, i: nat)
    requires LogOk(cfg, log) && CarriesMethods(log, i) && ParentIndex(log[i].origin).None?
    ensures SatisfiesSecondFactor(Methods(log, i)) <==> Establishes(log[i])
  {
    assert EntryOk(cfg, log, i);
    WeakMethods();
    SecondFactorOfOne("pwd");
    SecondFactorOfOne("oauth");
    SecondFactorOfOne("svc");
    SecondFactorOfOne("integration");
    match log[i].origin
    case SecondFactorVerified(_, m) => PairMethods(m);
    case Enrolled(_) => PairMethods("totp");
    case Asserted(a, _) => SecondFactorOfConcat(a.amr, ["integration"]);
    case _ =>
  }

  lemma {:induction false} MethodsFollowRoot(cfg: Config, log: seq<Event>, i: nat)
    requires LogOk(cfg, log) && CarriesMethods(log, i)
    ensures log[Root(log, i)].Minted?
    ensures SatisfiesSecondFactor(Methods(log, i)) <==> Establishes(log[Root(log, i)])
    decreases i
  {
    assert EntryOk(cfg, log, i);
    var p := ParentIndex(log[i].origin);
    if p.None? {
      RootMethods(cfg, log, i);
    } else {
      assert EntryOk(cfg, log, p.value);
      MethodsFollowRoot(cfg, log, p.value);
      WeakMethods();
      SecondFactorOfConcat(["sso"], Methods(log, p.value));
      SecondFactorOfOne("sso");
      SecondFactorOfOne("pwd");
    }
  }

  /**
    Second-factor provenance, both ways. In every run a session counts as second-factored
    exactly when its lineage, through refreshes, hand-offs and redeems, began with an event that
    established one: a verified factor, a completed enrolment, a federated login, a key, or an
    accepted assertion that itself carried one. A password login, or HTTP Basic, never leads to
    one, and no refresh or hand-off loses one.
  */
  lemma SecondFactorProvenance(cfg: Config, s0: State, steps: seq<Step>, i: nat)
    requires Initial(s0) && ValidRun(cfg, s0, steps)
    requires IsMinted(Exec(cfg, s0, steps).log, i, Session)
    ensures var log := Exec(cfg, s0, steps).log;
            && log[Root(log, i)].Minted?
            && (SatisfiesSecondFactor(Methods(log, i)) <==> Establishes(log[Root(log, i)]))
  {
    ReachableLog(cfg, s0, steps);
    MethodsFollowRoot(cfg, Exec(cfg, s0, steps).log, i);
  }

  /** Where two-factor is on, a bearer request is served in a demanding tenant only on such a lineage. */
  lemma DemandingTenantNeedsSecondFactor(cfg: Config, s0: State, steps: seq<Step>, i: nat)
    requires Initial(s0) && ValidRun(cfg, s0, steps) && cfg.mfaEnabled
    requires var log := Exec(cfg, s0, steps).log;
             i < |log| && log[i].Served? && log[i].demands2fa && log[i].token.Some?
    ensures var log := Exec(cfg, s0, steps).log;
            var t := log[i].token.value;
            t < i && log[Root(log, t)].Minted? && Establishes(log[Root(log, t)])
  {
    ReachableLog(cfg, s0, steps);
    var log := Exec(cfg, s0, steps).log;
    assert EntryOk(cfg, log, i);
    var t := log[i].token.value;
    assert EntryOk(cfg, log, t);
    MethodsFollowRoot(cfg, log, t);
  }

  // ---- kinds and doors ------------------------------------------------------------------------------

  /** Over every run, each credential opens at most one of the four doors, its own kind's. */
  lemma OneDoorEach(cfg: Config, s0: State, steps: seq<Step>, i: nat, d: Door, d': Door)
    requires Initial(s0) && ValidRun(cfg, s0, steps)
    requires var log := Exec(cfg, s0, steps).log;
             i < |log| && log[i].Minted? && MayOpen(log[i].claims, d) && MayOpen(log[i].claims, d')
    ensures d == d' == OwnDoor(Exec(cfg, s0, steps).log[i].kind)
  {
    ReachableLog(cfg, s0, steps);
    var log := Exec(cfg, s0, steps).log;
    assert EntryOk(cfg, log, i);
    KindsNeverCross(log[i].claims, log[i].kind, d);
    KindsNeverCross(log[i].claims, log[i].kind, d');
  }

  /** A ticket opens only the uid it was asked for, as the user, tenant and roles that asked. */
  lemma TicketsReadBack(cfg: Config, s0: State, steps: seq<Step>, i: nat, uid: string, permits: bool, gate: bool)
    requires Initial(s0) && ValidRun(cfg, s0, steps)
    requires var log := Exec(cfg, s0, steps).log;
             IsMinted(log, i, Ticket) && TicketDoor(log[i].claims, uid, permits, gate).Some?
    ensures var log := Exec(cfg, s0, steps).log;
            var got := TicketDoor(log[i].claims, uid, permits, gate).value;
            && log[i].origin.Ticketed? && uid == log[i].origin.uid
            && got.user == log[i].origin.id.user && got.tenant == log[i].origin.id.tenant
            && got.roles == log[i].origin.id.roles
  {
    ReachableLog(cfg, s0, steps);
    var log := Exec(cfg, s0, steps).log;
    assert EntryOk(cfg, log, i);
    var c, o := log[i].claims, log[i].origin;
    TicketRoundTrip(o.id, o.uid, c.typ.Or(""), c.mt.Or(""), log[i].at, c.exp - log[i].at, uid, permits, gate);
  }

  // ---- write-ahead audit -------------------------------------------------------------------------------

  /** With auditing on, the event that justifies an issued token sits right before it: i - 1 is an injection. */
  lemma WriteAhead(cfg: Config, s0: State, steps: seq<Step>, i: nat)
    requires Initial(s0) && ValidRun(cfg, s0, steps) && cfg.auditEnabled
    requires IsIssued(Exec(cfg, s0, steps).log, i)
    ensures var log := Exec(cfg, s0, steps).log;
            i > 0 && IsSuccess(log[i - 1]) && log[i - 1].actor == log[i].claims.sub
  {
    ReachableLog(cfg, s0, steps);
    assert EntryOk(cfg, Exec(cfg, s0, steps).log, i);
  }

  function Issued(log: seq<Event>, n: nat, user: string): nat
    requires n <= |log|
  {
    if n == 0 then 0
    else Issued(log, n - 1, user) + if IsIssued(log, n - 1) && log[n - 1].claims.sub == user then 1 else 0
  }

  function Successes(log: seq<Event>, n: nat, user: string): nat
    requires n <= |log|
  {
    if n == 0 then 0
    else Successes(log, n - 1, user) + if IsSuccess(log[n - 1]) && log[n - 1].actor == user then 1 else 0
  }

  lemma {:induction false} AuditNeverBehind(cfg: Config, log: seq<Event>, n: nat, user: string)
    requires LogOk(cfg, log) && cfg.auditEnabled && n <= |log|
    ensures Issued(log, n, user) <= Successes(log, n, user)
  {
    if n == 0 {
    } else {
      assert EntryOk(cfg, log, n - 1);
      if IsIssued(log, n - 1) {
        AuditNeverBehind(cfg, log, n - 2, user);
      } else {
        AuditNeverBehind(cfg, log, n - 1, user);
      }
    }
  }

  /** So at every moment of every run, no user has more tokens than recorded successes. */
  lemma AuditCoversTokens(cfg: Config, s0: State, steps: seq<Step>, n: nat, user: string)
    requires Initial(s0) && ValidRun(cfg, s0, steps) && cfg.auditEnabled && n <= |Exec(cfg, s0, steps).log|
    ensures Issued(Exec(cfg, s0, steps).log, n, user) <= Successes(Exec(cfg, s0, steps).log, n, user)
  {
    ReachableLog(cfg, s0, steps);
    AuditNeverBehind(cfg, Exec(cfg, s0, steps).log, n, user);
  }
}
