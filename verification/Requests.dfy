/**
  What each request does, exactly: the conditions under which it mints or serves, each told by the
  fields of the request and the state it meets, and precisely which credential it then mints. Then
  what follows over whole runs: every credential of the log was added by a request that met those
  conditions, so a second factor on record was really presented, and a key's secret really given.
*/
module Requests {
  import opened Credentials
  import opened Lifecycle
  import opened LifecycleTheorems

  // ---- the parts of a condition ---------------------------------------------------------------

  /** The credential at this log position was minted and has not expired. */
  predicate Live(s: State, token: nat) {
    token < |s.log| && s.log[token].Minted? && s.now < s.log[token].claims.exp
  }

  predicate AuditAccepted(cfg: Config, w: World) { cfg.auditEnabled ==> w.auditUp }

  /** The tenant a sign-in lands in: the one asked for if the user belongs to it, else the first of theirs. */
  function Landing(asked: string, tenants: seq<string>): (t: string)
    requires tenants != []
    ensures t in tenants && (asked in tenants ==> t == asked) && (asked !in tenants ==> t == tenants[0])
  {
    if asked in tenants then asked else tenants[0]
  }

  function OrDefault(tenant: string): string { if tenant == "" then "default" else tenant }

  /** Every credential minted among these events is `e`. */
  ghost predicate MintsOnly(events: seq<Event>, e: Event) {
    forall i :: 0 <= i < |events| && events[i].Minted? ==> events[i] == e
  }

  ghost predicate MintsKind(events: seq<Event>, k: Kind) {
    exists i :: 0 <= i < |events| && events[i].Minted? && events[i].kind == k
  }

  // ---- who a request acts as -------------------------------------------------------------------

  /** The tenant a bearer request is for: the header's, else the token's own. */
  function Active(c: Claims, xTenant: string): string { if xTenant != "" then xTenant else c.tenant }

  /** A token gets a request through exactly under these conditions, and then as this identity. */
  lemma BearerIff(cfg: Config, s: State, token: nat, xTenant: string, w: World)
    ensures var who := Authenticate(cfg, s, Token(token, xTenant), w);
            && (who.Some? <==>
                  && Live(s, token) && w.permits && w.gate
                  && var c := s.log[token].claims;
                  && var t := Active(c, xTenant);
                  && !c.mfaPending && c.typ != Some("download") && c.typ != Some("playback")
                  && t != "" && c.roles.Some? && t in c.roles.value
                  && (cfg.mfaEnabled && w.demands2fa ==> SatisfiesSecondFactor(c.amr.Or([]))))
            && (who.Some? ==>
                  var c := s.log[token].claims;
                  var t := Active(c, xTenant);
                  who.value == Identity(c.sub, t, c.roles.value[t], c.amr.Or([]), c.jti.Or(""),
                                        c.skid.Or(""), c.skgen.Or("")))
  {}

  /** In every run that is: an issued session or service token, alive, not signed out, in a tenant of its roles. */
  lemma BearerIffIssued(cfg: Config, s0: State, steps: seq<Step>, token: nat, xTenant: string, w: World)
    requires Initial(s0) && ValidRun(cfg, s0, steps)
    ensures var s := Exec(cfg, s0, steps);
            Authenticate(cfg, s, Token(token, xTenant), w).Some? <==>
            && IsIssued(s.log, token) && s.now < s.log[token].claims.exp && w.permits && w.gate
            && TokenTenantMember(s.log[token].claims, Active(s.log[token].claims, xTenant))
            && (cfg.mfaEnabled && w.demands2fa ==> SatisfiesSecondFactor(s.log[token].claims.amr.Or([])))
  {
    ReachableLog(cfg, s0, steps);
    var s := Exec(cfg, s0, steps);
    BearerIff(cfg, s, token, xTenant, w);
    if token < |s.log| { assert EntryOk(cfg, s.log, token); }
    TypesAreMarked();
  }

  lemma TypesAreMarked()
    ensures IsTicketType("download") && IsTicketType("playback") && !IsTicketType("")
  {}

  /** HTTP Basic gets a request through exactly when the directory bound the user and lists the tenant as theirs. */
  lemma BasicIff(cfg: Config, s: State, bound: Option<Bound>, tenant: string, w: World)
    ensures var who := Authenticate(cfg, s, Basic(bound, tenant), w);
            && (who.Some? <==> bound.Some? && w.gate && OrDefault(tenant) in w.tenants)
            && (who.Some? ==>
                  who.value == Identity(bound.value.user, OrDefault(tenant), bound.value.roles, [], "", "", ""))
  {}

  /** A resource request is served exactly when it authenticates, and as that identity. */
  lemma AccessServedIff(cfg: Config, s: State, step: Step)
    requires step.Access?
    ensures var who := Authenticate(cfg, s, step.auth, step.w);
            ResourceRequest(cfg, s, step)
            == if who.Some? then [Served(who.value, ParentOf(step.auth), step.w.demands2fa)] else []
  {}

  /** Ticketed content is served exactly on a live ticket for that uid, its session permitted, its tenant admitted. */
  lemma ContentServedIff(s: State, step: Step)
    requires step.TicketAccess?
    ensures TicketedContent(s, step) != [] <==>
            && Live(s, step.token) && step.w.gate
            && var c := s.log[step.token].claims;
            && (c.typ == Some("download") || c.typ == Some("playback")) && c.dl.Or("") == step.uid
            && (c.sid.Or("") != "" ==> step.w.permits)
    ensures TicketedContent(s, step) != [] ==>
              var c := s.log[step.token].claims;
              TicketedContent(s, step) == [Served(IdentityFromClaims(c, c.tenant), Some(step.token), false)]
  {
    TypesAreMarked();
  }

  // ---- signing in --------------------------------------------------------------------------------

  /** Everything a password login needs before the second factor comes up. */
  predicate LoginReady(cfg: Config, step: Step)
    requires step.Login?
  {
    step.bound.Some? && step.w.gate && step.w.tenants != [] && AuditAccepted(cfg, step.w)
  }

  /**
    A password login ends in a session exactly when it is ready and the user needs no second factor, in
    a challenge exactly when it is ready and the user needs one; if the identity service does not say,
    in neither. Both are for the tenant the sign-in lands in.
  */
  lemma LoginMintsIff(cfg: Config, s: State, step: Step)
    requires step.Login?
    ensures var out := IssueToken(cfg, s, step);
            && (MintsKind(out, Session) <==>
                  LoginReady(cfg, step) && (cfg.mfaEnabled ==> step.mfa == Some(false)))
            && (MintsKind(out, Pending) <==> LoginReady(cfg, step) && cfg.mfaEnabled && step.mfa == Some(true))
            && (Mints(out) ==> MintsKind(out, Session) || MintsKind(out, Pending))
            && (Mints(out) ==> LoginReady(cfg, step) && MintsOnly(out, LoginCredential(cfg, s, step)))
  {
    if LoginReady(cfg, step) && !(cfg.mfaEnabled && step.mfa.None?) {
      LoginShape(cfg, s, step);
    } else {
      LoginRefused(cfg, s, step);
    }
  }

  lemma LoginRefused(cfg: Config, s: State, step: Step)
    requires step.Login? && !(LoginReady(cfg, step) && !(cfg.mfaEnabled && step.mfa.None?))
    ensures !Mints(IssueToken(cfg, s, step))
  {}

  lemma LoginShape(cfg: Config, s: State, step: Step)
    requires step.Login? && LoginReady(cfg, step) && !(cfg.mfaEnabled && step.mfa.None?)
    ensures Mints(IssueToken(cfg, s, step))
    ensures MintsKind(IssueToken(cfg, s, step), LoginCredential(cfg, s, step).kind)
    ensures MintsOnly(IssueToken(cfg, s, step), LoginCredential(cfg, s, step))
  {
    var w := step.w;
    var user, tenant := step.bound.value.user, Landing(OrDefault(step.tenant), w.tenants);
    var audit, e := Emit(cfg, w, LoginSuccess, true, user, tenant), LoginCredential(cfg, s, step);
    var after := if e.kind == Pending then Emit(cfg, w.(auditUp := w.auditAfter), MfaChallenge, true, user, tenant)
                 else [];
    assert IssueToken(cfg, s, step) == audit + [e] + after;
    OneAmongAudits(audit, e, after);
  }

  lemma OneAmongAudits(audit: seq<Event>, e: Event, after: seq<Event>)
    requires e.Minted?
    requires (forall i :: 0 <= i < |audit| ==> !audit[i].Minted?) && forall i :: 0 <= i < |after| ==> !after[i].Minted?
    ensures var out := audit + [e] + after; Mints(out) && MintsKind(out, e.kind) && MintsOnly(out, e)
  {
    assert (audit + [e] + after)[|audit|] == e;
  }

  /** The credential a ready login mints: a challenge bound to the caller's address, or a password session. */
  ghost function LoginCredential(cfg: Config, s: State, step: Step): (e: Event)
    requires step.Login? && LoginReady(cfg, step)
    ensures e.Minted?
  {
    var user, tenant := step.bound.value.user, Landing(OrDefault(step.tenant), step.w.tenants);
    if cfg.mfaEnabled && step.mfa == Some(true) then
      Minted(PendingClaims(user, tenant, step.ip, step.w.jti, s.now, cfg.mfaChallengeTtl), Pending, Challenged, s.now)
    else Minted(SessionFor(cfg, s, step.w, user, tenant, ["pwd"], ""), Session, PasswordLogin, s.now)
  }

  /** The identity service holds this key, live, for exactly this tenant, with a user and a generation. */
  predicate KeyStands(s: State, keyId: string, tenant: string) {
    && keyId in s.keys && s.keys[keyId].live && s.keys[keyId].tenant == tenant
    && s.keys[keyId].uid != "" && s.keys[keyId].generation != ""
  }

  /** A key login mints exactly when the given secret is the key's, the key stands, and its user is still a member. */
  lemma KeyLoginMintsIff(cfg: Config, s: State, step: Step)
    requires step.KeyLogin?
    ensures var out, tenant := IssueServiceKeyToken(cfg, s, step), OrDefault(step.tenant);
            && (Mints(out) <==>
                  && step.w.gate && step.secretGiven && step.secretGood && step.fault.None?
                  && KeyStands(s, step.keyId, tenant) && tenant in step.w.tenants && AuditAccepted(cfg, step.w))
            && (Mints(out) ==>
                  var key := s.keys[step.keyId];
                  var c := SessionClaims(key.uid, tenant, ["svc"], step.w.byTenant, step.w.jti, "", step.keyId,
                                         key.generation, s.now, cfg.tokenTtl);
                  MintsOnly(out, Minted(c, Session, KeyPresented(step.keyId), s.now)))
  {
    var out := IssueServiceKeyToken(cfg, s, step);
    if out != [] && out[|out| - 1].Minted? { assert Mints(out); }
  }

  /** The second factor presented, as the session will record it. */
  function Means(factor: Factor): string {
    if factor.EnrolComplete? || factor.means == "" then "totp" else factor.means
  }

  /**
    Completing a second factor mints exactly when the token is a live challenge with a subject, presented
    from the address it was issued to, and the identity service accepted the code.
  */
  lemma FactorMintsIff(cfg: Config, s: State, step: Step)
    requires step.CompleteFactor?
    ensures var out := VerifyMfa(cfg, s, step);
            && (Mints(out) <==>
                  && Live(s, step.token) && step.good && AuditAccepted(cfg, step.w)
                  && var c := s.log[step.token].claims;
                  c.mfaPending && c.sub != "" && c.mip.Or("") == step.ip)
            && (Mints(out) ==>
                  var c := s.log[step.token].claims;
                  var o := if step.factor.EnrolComplete? then Enrolled(step.token)
                           else SecondFactorVerified(step.token, Means(step.factor));
                  MintsOnly(out, Minted(SessionFor(cfg, s, step.w, c.sub, c.tenant, ["pwd", Means(step.factor)], ""),
                                        Session, o, s.now)))
  {
    var out := VerifyMfa(cfg, s, step);
    if out != [] && out[|out| - 1].Minted? { assert Mints(out); }
  }

  /** A federated login mints exactly when the directory knows the user and the audit event was accepted. */
  lemma OAuthMintsIff(cfg: Config, s: State, step: Step)
    requires step.OAuthCallback?
    ensures var out := OAuthLogin(cfg, s, step);
            && (Mints(out) <==> step.user != "" && AuditAccepted(cfg, step.w))
            && MintsOnly(out, Minted(SessionFor(cfg, s, step.w, step.user, step.tenant, ["oauth"], ""),
                                     Session, Federated, s.now))
  {
    var out := OAuthLogin(cfg, s, step);
    if out != [] && out[|out| - 1].Minted? { assert Mints(out); }
  }

  /** What an exchange mints: a service token with configured roles, or a session of the asserted user. */
  lemma ExchangeCredential(cfg: Config, s: State, step: Step)
    requires step.Exchange? && Mints(AuthExchange(cfg, s, step))
    ensures var out, w, a := AuthExchange(cfg, s, step), step.w, step.assertion;
            if a.tokenType == "service" then
              var c := ServiceClaims(a.sub, a.tenant, cfg.serviceRoles, step.ip, a.scope, w.jti, s.now, cfg.tokenTtl);
              MintsOnly(out, Minted(c, Service, Asserted(a, step.inst), s.now))
            else
              && w.tenants != []
              && var tenant := if a.tenant == "" then w.tenants[0] else Landing(a.tenant, w.tenants);
              var c := SessionFor(cfg, s, w, a.sub, tenant, a.amr + ["integration"], step.ip);
              MintsOnly(out, Minted(c, Session, Asserted(a, step.inst), s.now))
  {}

  /** What a redeem mints: a session of the code's user, bound to the redeeming address, its methods carried over. */
  lemma RedeemCredential(cfg: Config, s: State, step: Step)
    requires step.Redeem? && Mints(RedeemCode(cfg, s, step))
    ensures Live(s, step.code) && s.log[step.code].claims.sso == Some("handoff")
    ensures var code := s.log[step.code].claims;
            var c := SessionFor(cfg, s, step.w, code.sub, code.tenant, ["sso"] + code.amr.Or([]), step.ip);
            MintsOnly(RedeemCode(cfg, s, step), Minted(c, Session, Redeemed(step.code, step.inst), s.now))
  {}

  // ---- staying signed in ---------------------------------------------------------------------------

  /** A key session is renewed exactly while its key stands, unrotated, for the same user, still a member. */
  lemma KeyRefreshMintsIff(cfg: Config, s: State, step: Step, id: Identity)
    requires step.Refresh?
    ensures var out := RefreshServiceKeyToken(cfg, s, step, id);
            && (Mints(out) <==>
                  && step.fault.None? && KeyStands(s, id.keyId, id.tenant)
                  && s.keys[id.keyId].uid == id.user && s.keys[id.keyId].generation == id.keyGen
                  && id.tenant in step.w.tenants && AuditAccepted(cfg, step.w))
            && var c := SessionClaims(id.user, id.tenant, ["svc"], step.w.byTenant, step.w.jti, "", id.keyId, id.keyGen,
                                      s.now, cfg.tokenTtl);
            MintsOnly(out, Minted(c, Session, Refreshed(ParentOf(step.auth)), s.now))
  {
    var out := RefreshServiceKeyToken(cfg, s, step, id);
    if out != [] && out[|out| - 1].Minted? { assert Mints(out); }
  }

  /**
    An ordinary session is renewed exactly when the request authenticates, the directory still lists a
    tenant for the user, and the audit event was accepted; it stays in its tenant while the user does.
  */
  lemma RefreshMintsIff(cfg: Config, s: State, step: Step)
    requires step.Refresh?
    requires var who := Authenticate(cfg, s, step.auth, step.w); who.Some? ==> who.value.keyId == ""
    ensures var out, who := RefreshToken(cfg, s, step), Authenticate(cfg, s, step.auth, step.w);
            && (Mints(out) <==> who.Some? && step.w.tenants != [] && AuditAccepted(cfg, step.w))
            && (Mints(out) ==>
                  var id := who.value;
                  var c := SessionFor(cfg, s, step.w, id.user, Landing(id.tenant, step.w.tenants),
                                      if id.amr == [] then ["pwd"] else id.amr, "");
                  MintsOnly(out, Minted(c, Session, Refreshed(ParentOf(step.auth)), s.now)))
  {
    var out := RefreshToken(cfg, s, step);
    if out != [] && out[|out| - 1].Minted? { assert Mints(out); }
  }

  /** And a key session goes the key's way. */
  lemma RefreshOfKeySession(cfg: Config, s: State, step: Step)
    requires step.Refresh?
    requires var who := Authenticate(cfg, s, step.auth, step.w); who.Some? && who.value.keyId != ""
    ensures RefreshToken(cfg, s, step)
         == RefreshServiceKeyToken(cfg, s, step, Authenticate(cfg, s, step.auth, step.w).value)
  {}

  /** A hand-off code is minted exactly for an authenticated request that is no key's, whatever the audit sink says. */
  lemma HandoffMintsIff(cfg: Config, s: State, step: Step)
    requires step.Handoff?
    ensures var out, who := HandoffCode(cfg, s, step), Authenticate(cfg, s, step.auth, step.w);
            && (Mints(out) <==> who.Some? && who.value.keyId == "")
            && (Mints(out) ==>
                  var id := who.value;
                  var c := HandoffClaims(id.user, id.tenant, step.w.jti, s.now, cfg.handoffTtl, id.amr);
                  MintsOnly(out, Minted(c, Kind.Handoff, HandedOff(ParentOf(step.auth)), s.now)))
  {
    var out := HandoffCode(cfg, s, step);
    if out != [] && out[0].Minted? { assert Mints(out); }
  }

  /** A ticket is minted exactly for an authenticated request, of the type and for the time its media calls for. */
  lemma TicketMintsIff(cfg: Config, s: State, step: Step)
    requires step.MintTicket?
    ensures var out, who := TicketFor(cfg, s, step), Authenticate(cfg, s, step.auth, step.w);
            && (Mints(out) <==> who.Some?)
            && (Mints(out) ==>
                  var playback := step.mediaType.Some?;
                  && |out| == 1 && out[0].kind == Ticket
                  && out[0].claims.typ == Some(if playback then "playback" else "download")
                  && out[0].claims.mt == NonEmpty(step.mediaType.Or(""))
                  && out[0].claims.dl == Some(step.uid) && out[0].claims.iat == s.now
                  && out[0].origin == Ticketed(ParentOf(step.auth), who.value, step.uid)
                  && (playback ==> s.now < out[0].claims.exp <= s.now + 1800)
                  && (playback && 0 < cfg.playbackTicketTtl <= 1800 ==>
                        out[0].claims.exp == s.now + cfg.playbackTicketTtl)
                  && (!playback ==> out[0].claims.exp == s.now + cfg.downloadTicketTtl))
  {
    var out := TicketFor(cfg, s, step);
    if out != [] { assert out[0].Minted?; }
  }

  // ---- what a refusal leaves behind ---------------------------------------------------------------

  ghost predicate Records(events: seq<Event>, action: Action) {
    exists i :: 0 <= i < |events| && events[i].Audited? && events[i].action == action && !events[i].ok
  }

  /**
    A refused tenant is not a failed login: with the sink up, a login failure is recorded exactly for bad
    credentials or a user without tenants, a denial exactly for good credentials in a closed tenant.
  */
  lemma LoginRefusalRecorded(cfg: Config, s: State, step: Step)
    requires step.Login?
    ensures var out, up := IssueToken(cfg, s, step), cfg.auditEnabled && step.w.auditUp;
            && (Records(out, LoginFailure) <==> up && (step.bound.None? || (step.w.gate && step.w.tenants == [])))
            && (Records(out, LoginDenied) <==> up && step.bound.Some? && !step.w.gate)
  {
    var out := IssueToken(cfg, s, step);
    if out != [] && out[0].Audited? { assert Records(out, out[0].action) || out[0].ok; }
  }

  /** ldap_manager's one way to say a credential is no good. */
  predicate KeyRejected(s: State, step: Step, tenant: string)
    requires step.KeyLogin?
  {
    match step.fault
    case Some(status) => status == 401
    case None =>
      !(step.keyId in s.keys && s.keys[step.keyId].live && s.keys[step.keyId].tenant == tenant && step.secretGood)
  }

  /** A key login likewise; an identity service that is at fault leaves no failure on the key's record. */
  lemma KeyRefusalRecorded(cfg: Config, s: State, step: Step)
    requires step.KeyLogin?
    ensures var out, tenant := IssueServiceKeyToken(cfg, s, step), OrDefault(step.tenant);
            var up := cfg.auditEnabled && step.w.auditUp;
            && (Records(out, LoginDenied) <==> up && !step.w.gate)
            && (Records(out, LoginFailure) <==>
                  && up && step.w.gate
                  && (!step.secretGiven || KeyRejected(s, step, tenant)
                      || (step.fault.None? && KeyStands(s, step.keyId, tenant) && tenant !in step.w.tenants)))
  {
    var out := IssueServiceKeyToken(cfg, s, step);
    if out != [] && out[0].Audited? { assert Records(out, out[0].action) || out[0].ok; }
  }
}
