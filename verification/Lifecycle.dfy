/**
  The life of credentials over whole runs. Each request is one step; what the directory, the
  identity service, the denylist, the tenant gate and the audit sink answered during it comes
  with the step, so every answer they could give is covered. `log` records, in order, each
  audit event durably accepted, each credential minted and each resource request served. A
  presented credential is named by its position in the log: signatures are ideal.
*/
module Lifecycle {
  import opened Credentials
  import G = ReplayGuard

  datatype Config = Config(
    tokenTtl: int, handoffTtl: int, mfaChallengeTtl: int, downloadTicketTtl: int, playbackTicketTtl: int,
    auditEnabled: bool, mfaEnabled: bool, integrationIssuer: string, allowService: bool, serviceRoles: seq<string>)

  datatype Assertion = Assertion(
    sub: string, tenant: string, exp: int, jti: string, tokenType: string, amr: seq<string>, scope: string)

  datatype Action =
    | LoginSuccess | LoginFailure | LoginDenied | MfaChallenge | MfaSuccess | MfaFailure
    | TokenRefresh | SsoHandoff | SsoRedeem | IntegrationExchange

  /** Why a credential exists. A parent is the log position of the credential it came from. */
  datatype Origin =
    | PasswordLogin
    | Challenged
    | SecondFactorVerified(challenge: nat, means: string)
    | Enrolled(challenge: nat)
    | Federated
    | KeyPresented(keyId: string)
    | Asserted(assertion: Assertion, inst: int)
    | Refreshed(parent: Option<nat>)                            // None: refreshed over HTTP Basic
    | HandedOff(parent: Option<nat>)
    | Redeemed(code: nat, inst: int)
    | Ticketed(parent: Option<nat>, id: Identity, uid: string)

  datatype Event =
    | Audited(action: Action, ok: bool, actor: string, tenant: string)
    | Minted(claims: Claims, kind: Kind, origin: Origin, at: int)
    | Served(id: Identity, token: Option<nat>, demands2fa: bool)

  datatype KeyRecord = KeyRecord(uid: string, generation: string, tenant: string, live: bool)

  datatype State = State(
    now: int,
    log: seq<Event>,
    handoffSeen: map<int, G.Seen>,       // each process keeps its own replay guards
    assertionSeen: map<int, G.Seen>,
    keys: map<string, KeyRecord>,        // ldap_manager's generated credentials
    retired: map<(string, string), int>) // when a key's secret generation stopped being good

  /** What the rest of the deployment answers during one request; `auditAfter` is for a second audit event. */
  datatype World = World(
    auditUp: bool, auditAfter: bool, permits: bool, gate: bool, demands2fa: bool,
    tenants: seq<string>, byTenant: Roles, jti: string)

  datatype Bound = Bound(user: string, roles: seq<string>)

  datatype Auth =
    | Token(token: nat, xTenant: string)
    | Basic(bound: Option<Bound>, tenant: string)

  datatype Factor = Verify(means: string) | EnrolComplete

  datatype Step =
    | Tick(elapsed: nat)
    | Login(bound: Option<Bound>, attempted: string, tenant: string, mfa: Option<bool>, ip: string, w: World)
    | KeyLogin(keyId: string, secretGiven: bool, secretGood: bool, tenant: string, fault: Option<int>, w: World)
    | CompleteFactor(token: nat, ip: string, factor: Factor, good: bool, w: World)
    | OAuthCallback(email: string, user: string, tenant: string, w: World)
    | Exchange(assertion: Assertion, verified: bool, inst: int, ip: string, w: World)
    | Refresh(auth: Auth, fault: Option<int>, w: World)
    | Handoff(auth: Auth, w: World)
    | Redeem(code: nat, inst: int, ip: string, w: World)
    | MintTicket(auth: Auth, uid: string, mediaType: Option<string>, w: World)
    | Access(auth: Auth, w: World)
    | TicketAccess(token: nat, uid: string, w: World)
    | PutKey(keyId: string, record: KeyRecord)
    | RevokeKey(keyId: string)

  // ---- shared parts of the handlers -----------------------------------------------------

  predicate EmitOk(cfg: Config, w: World) { !cfg.auditEnabled || w.auditUp }

  /** The audit sink keeps an event only when auditing is on and the write is accepted. */
  function Emit(cfg: Config, w: World, action: Action, ok: bool, actor: string, tenant: string): seq<Event> {
    if cfg.auditEnabled && w.auditUp then [Audited(action, ok, actor, tenant)] else []
  }

  function VerifyToken(s: State, token: nat): Option<Claims> {
    if token < |s.log| && s.log[token].Minted? && s.now < s.log[token].claims.exp then Some(s.log[token].claims)
    else None
  }

  /** `authenticate` and the tenant gate that follows it on every resource route. */
  function Authenticate(cfg: Config, s: State, auth: Auth, w: World): Option<Identity> {
    match auth
    case Token(token, x) =>
      var c := VerifyToken(s, token);
      if c.None? || !w.gate then None else BearerDoor(c.value, w.permits, x, cfg.mfaEnabled, w.demands2fa)
    case Basic(bound, t) =>
      var tenant := if t == "" then "default" else t;
      if bound.None? || !w.gate || tenant !in w.tenants then None
      else Some(Identity(bound.value.user, tenant, bound.value.roles, [], "", "", ""))
  }

  function ParentOf(auth: Auth): Option<nat> {
    match auth case Token(t, _) => Some(t) case Basic(_, _) => None
  }

  function GuardOf(guards: map<int, G.Seen>, inst: int): G.Seen {
    if inst in guards then guards[inst] else map[]
  }

  // ---- generated keys ----------------------------------------------------------------------

  datatype KeyVerdict = Valid | Invalid | Unavailable

  function ClassifyVerifyAnswer(status: int, uid: string, generation: string): KeyVerdict {
    if status == 401 then Invalid
    else if status != 200 || uid == "" || generation == "" then Unavailable
    else KeyVerdict.Valid
  }

  datatype KeyAnswer = KeyAnswer(status: int, uid: string, generation: string)

  /** ldap_manager answers for the key as it is now, or fails with some other status. */
  function AskKey(s: State, keyId: string, tenant: string, secretGood: bool, fault: Option<int>): KeyAnswer {
    if fault.Some? then KeyAnswer(fault.value, "", "")
    else if keyId in s.keys && s.keys[keyId].live && s.keys[keyId].tenant == tenant && secretGood then
      KeyAnswer(200, s.keys[keyId].uid, s.keys[keyId].generation)
    else KeyAnswer(401, "", "")
  }

  predicate MayRefresh(v: KeyVerdict, statusUid: string, statusGen: string, user: string, gen: string,
                       tenants: seq<string>, tenant: string) {
    v.Valid? && statusUid == user && gen != "" && statusGen == gen && tenant in tenants
  }

  predicate IsServiceKeyId(s: string) { "fesk_" <= s }

  // ---- the handlers: what each request adds to the log -------------------------------------

  ghost function SessionFor(
      cfg: Config, s: State, w: World, user: string, tenant: string, amr: seq<string>, aip: string): Claims
  {
    SessionClaims(user, tenant, amr, w.byTenant, w.jti, aip, "", "", s.now, cfg.tokenTtl)
  }

  ghost function IssueToken(cfg: Config, s: State, step: Step): seq<Event>
    requires step.Login?
  {
    var w := step.w;
    if step.bound.None? then Emit(cfg, w, LoginFailure, false, step.attempted, step.tenant)
    else
      var user := step.bound.value.user;
      var asked := if step.tenant == "" then "default" else step.tenant;
      if !w.gate then Emit(cfg, w, LoginDenied, false, user, asked)
      else if w.tenants == [] then Emit(cfg, w, LoginFailure, false, user, asked)
      else if !EmitOk(cfg, w) then []
      else
        var tenant := if asked in w.tenants then asked else w.tenants[0];
        var audit := Emit(cfg, w, LoginSuccess, true, user, tenant);
        if cfg.mfaEnabled && step.mfa.None? then audit
        else if cfg.mfaEnabled && step.mfa.value then
          audit
          + [Minted(PendingClaims(user, tenant, step.ip, w.jti, s.now, cfg.mfaChallengeTtl),
                    Pending, Challenged, s.now)]
          + Emit(cfg, w.(auditUp := w.auditAfter), MfaChallenge, true, user, tenant)
        else audit + [Minted(SessionFor(cfg, s, w, user, tenant, ["pwd"], ""), Session, PasswordLogin, s.now)]
  }

  ghost function IssueServiceKeyToken(cfg: Config, s: State, step: Step): seq<Event>
    requires step.KeyLogin?
  {
    var w := step.w;
    var tenant := if step.tenant == "" then "default" else step.tenant;
    var a := AskKey(s, step.keyId, tenant, step.secretGood, step.fault);
    var v := ClassifyVerifyAnswer(a.status, a.uid, a.generation);
    if !w.gate then Emit(cfg, w, LoginDenied, false, step.keyId, tenant)
    else if !step.secretGiven then Emit(cfg, w, LoginFailure, false, step.keyId, tenant)
    else if v.Unavailable? then []
    else if v.Invalid? then Emit(cfg, w, LoginFailure, false, step.keyId, tenant)
    else if tenant !in w.tenants then Emit(cfg, w, LoginFailure, false, a.uid, tenant)
    else if !EmitOk(cfg, w) then []
    else
      Emit(cfg, w, LoginSuccess, true, a.uid, tenant)
      + [Minted(SessionClaims(a.uid, tenant, ["svc"], w.byTenant, w.jti, "", step.keyId, a.generation,
                              s.now, cfg.tokenTtl),
                Session, KeyPresented(step.keyId), s.now)]
  }

  /** Only the two actions of the second-factor route that can end in a session. */
  ghost function VerifyMfa(cfg: Config, s: State, step: Step): seq<Event>
    requires step.CompleteFactor?
  {
    var w := step.w;
    var v := VerifyToken(s, step.token);
    if v.None? || !v.value.mfaPending then []
    else
      var c := v.value;
      if !SecondFactorDoor(c, step.ip) || !step.good then
        Emit(cfg, w, MfaFailure, false, if c.sub == "" then "<unknown>" else c.sub, c.tenant)
      else if !EmitOk(cfg, w) then []
      else
        var means := if step.factor.EnrolComplete? || step.factor.means == "" then "totp" else step.factor.means;
        Emit(cfg, w, MfaSuccess, true, c.sub, c.tenant)
        + [Minted(SessionFor(cfg, s, w, c.sub, c.tenant, ["pwd", means], ""), Session,
                  if step.factor.EnrolComplete? then Enrolled(step.token)
                  else SecondFactorVerified(step.token, means), s.now)]
  }

  ghost function OAuthLogin(cfg: Config, s: State, step: Step): seq<Event>
    requires step.OAuthCallback?
  {
    var w := step.w;
    if step.user == "" then Emit(cfg, w, LoginFailure, false, step.email, step.tenant)
    else if !EmitOk(cfg, w) then []
    else
      Emit(cfg, w, LoginSuccess, true, step.user, step.tenant)
      + [Minted(SessionFor(cfg, s, w, step.user, step.tenant, ["oauth"], ""), Session, Federated, s.now)]
  }

  /** The assertion's signature, issuer and audience hold, and it is not past its leeway. */
  predicate AssertionStands(s: State, step: Step)
    requires step.Exchange?
  {
    step.verified && step.assertion.exp != 0 && s.now <= step.assertion.exp + 60 && step.assertion.sub != ""
  }

  ghost function AuthExchange(cfg: Config, s: State, step: Step): seq<Event>
    requires step.Exchange?
  {
    var w, a := step.w, step.assertion;
    if !AssertionStands(s, step) then Emit(cfg, w, IntegrationExchange, false, cfg.integrationIssuer, "")
    else if !G.Accepts(GuardOf(s.assertionSeen, step.inst), a.jti, s.now) then
      Emit(cfg, w, IntegrationExchange, false, cfg.integrationIssuer, a.tenant)
    else if a.tokenType == "service" then
      if !cfg.allowService || a.tenant == "" || !EmitOk(cfg, w) then []
      else
        Emit(cfg, w, IntegrationExchange, true, a.sub, a.tenant)
        + [Minted(ServiceClaims(a.sub, a.tenant, cfg.serviceRoles, step.ip, a.scope, w.jti, s.now, cfg.tokenTtl),
                  Service, Asserted(a, step.inst), s.now)]
    else if a.tokenType != "" && a.tokenType != "delegated" then []
    else if w.tenants == [] then Emit(cfg, w, IntegrationExchange, false, a.sub, a.tenant)
    else if !EmitOk(cfg, w) then []
    else
      var tenant := if a.tenant != "" && a.tenant in w.tenants then a.tenant else w.tenants[0];
      Emit(cfg, w, IntegrationExchange, true, a.sub, tenant)
      + [Minted(SessionFor(cfg, s, w, a.sub, tenant, a.amr + ["integration"], step.ip),
                Session, Asserted(a, step.inst), s.now)]
  }

  ghost function RefreshServiceKeyToken(cfg: Config, s: State, step: Step, id: Identity): seq<Event>
    requires step.Refresh?
  {
    var w := step.w;
    var a := AskKey(s, id.keyId, id.tenant, true, step.fault);
    var v := ClassifyVerifyAnswer(a.status, a.uid, a.generation);
    if v.Unavailable? then []
    else if !MayRefresh(v, a.uid, a.generation, id.user, id.keyGen, w.tenants, id.tenant) then
      Emit(cfg, w, TokenRefresh, false, id.user, id.tenant)
    else if !EmitOk(cfg, w) then []
    else
      Emit(cfg, w, TokenRefresh, true, id.user, id.tenant)
      + [Minted(SessionClaims(id.user, id.tenant, ["svc"], w.byTenant, w.jti, "", id.keyId, id.keyGen,
                              s.now, cfg.tokenTtl),
                Session, Refreshed(ParentOf(step.auth)), s.now)]
  }

  ghost function RefreshToken(cfg: Config, s: State, step: Step): seq<Event>
    requires step.Refresh?
  {
    var w := step.w;
    var who := Authenticate(cfg, s, step.auth, w);
    if who.None? then []
    else if who.value.keyId != "" then RefreshServiceKeyToken(cfg, s, step, who.value)
    else
      var id := who.value;
      if w.tenants == [] then Emit(cfg, w, TokenRefresh, false, id.user, id.tenant)
      else if !EmitOk(cfg, w) then []
      else
        var tenant := if id.tenant in w.tenants then id.tenant else w.tenants[0];
        Emit(cfg, w, TokenRefresh, true, id.user, tenant)
        + [Minted(SessionFor(cfg, s, w, id.user, tenant, if id.amr == [] then ["pwd"] else id.amr, ""),
                  Session, Refreshed(ParentOf(step.auth)), s.now)]
  }

  function HandoffCode(cfg: Config, s: State, step: Step): seq<Event>
    requires step.Handoff?
  {
    var w := step.w;
    var who := Authenticate(cfg, s, step.auth, w);
    if who.None? then []
    else
      var id := who.value;
      if id.keyId != "" then Emit(cfg, w, SsoHandoff, false, id.user, id.tenant)
      else
        [Minted(HandoffClaims(id.user, id.tenant, w.jti, s.now, cfg.handoffTtl, id.amr), Kind.Handoff,
                HandedOff(ParentOf(step.auth)), s.now)]
        + Emit(cfg, w, SsoHandoff, true, id.user, id.tenant)
  }

  /** The verified claims of a presented hand-off code. */
  function CodeOf(s: State, code: nat): Option<Claims> {
    var v := VerifyToken(s, code);
    if v.Some? && v.value.sso.Or("") == "handoff" then v else None
  }

  ghost function RedeemCode(cfg: Config, s: State, step: Step): seq<Event>
    requires step.Redeem?
  {
    var w := step.w;
    var v := CodeOf(s, step.code);
    if v.None? || !G.Accepts(GuardOf(s.handoffSeen, step.inst), v.value.jti.Or(""), s.now)
       || v.value.sub == "" || !EmitOk(cfg, w) then []
    else
      var c := v.value;
      Emit(cfg, w, SsoRedeem, true, c.sub, c.tenant)
      + [Minted(SessionFor(cfg, s, w, c.sub, c.tenant, ["sso"] + c.amr.Or([]), step.ip), Session,
                Redeemed(step.code, step.inst), s.now)]
  }

  function TicketFor(cfg: Config, s: State, step: Step): seq<Event>
    requires step.MintTicket?
  {
    var who := Authenticate(cfg, s, step.auth, step.w);
    if who.None? then []
    else
      var playback := step.mediaType.Some?;
      var ttl := if playback then ClampPlaybackTtl(cfg.playbackTicketTtl) else cfg.downloadTicketTtl;
      var typ := if playback then "playback" else "download";
      [Minted(TicketClaims(who.value, step.uid, typ, step.mediaType.Or(""), s.now, ttl),
              Ticket, Ticketed(ParentOf(step.auth), who.value, step.uid), s.now)]
  }

  function ResourceRequest(cfg: Config, s: State, step: Step): seq<Event>
    requires step.Access?
  {
    var who := Authenticate(cfg, s, step.auth, step.w);
    if who.None? then [] else [Served(who.value, ParentOf(step.auth), step.w.demands2fa)]
  }

  function TicketedContent(s: State, step: Step): seq<Event>
    requires step.TicketAccess?
  {
    var c := VerifyToken(s, step.token);
    var who := if c.None? then None else TicketDoor(c.value, step.uid, step.w.permits, step.w.gate);
    if who.None? then [] else [Served(who.value, Some(step.token), false)]
  }

  ghost function Outcome(cfg: Config, s: State, step: Step): seq<Event> {
    match step
    case Login(_, _, _, _, _, _) => IssueToken(cfg, s, step)
    case KeyLogin(_, _, _, _, _, _) => IssueServiceKeyToken(cfg, s, step)
    case CompleteFactor(_, _, _, _, _) => VerifyMfa(cfg, s, step)
    case OAuthCallback(_, _, _, _) => OAuthLogin(cfg, s, step)
    case Exchange(_, _, _, _, _) => AuthExchange(cfg, s, step)
    case Refresh(_, _, _) => RefreshToken(cfg, s, step)
    case Handoff(_, _) => HandoffCode(cfg, s, step)
    case Redeem(_, _, _, _) => RedeemCode(cfg, s, step)
    case MintTicket(_, _, _, _) => TicketFor(cfg, s, step)
    case Access(_, _) => ResourceRequest(cfg, s, step)
    case TicketAccess(_, _, _) => TicketedContent(s, step)
    case _ => []
  }

  /** Among these events is a minted credential. */
  ghost predicate Mints(events: seq<Event>) {
    exists i :: 0 <= i < |events| && events[i].Minted?
  }

  // ---- the step function ----------------------------------------------------------------------

  /** A redeem consults its process's guard as soon as the code verifies, whatever happens next. */
  function HandoffGuards(s: State, step: Step): map<int, G.Seen> {
    if step.Redeem? && CodeOf(s, step.code).Some? then
      var c := CodeOf(s, step.code).value;
      s.handoffSeen[step.inst := G.AcceptSeen(GuardOf(s.handoffSeen, step.inst), c.jti.Or(""), c.exp, s.now)]
    else s.handoffSeen
  }

  function AssertionGuards(s: State, step: Step): map<int, G.Seen> {
    if step.Exchange? && AssertionStands(s, step) then
      var a := step.assertion;
      s.assertionSeen[step.inst := G.AcceptSeen(GuardOf(s.assertionSeen, step.inst), a.jti, a.exp, s.now)]
    else s.assertionSeen
  }

  function Retire(s: State, keyId: string): map<(string, string), int> {
    if keyId !in s.keys || (keyId, s.keys[keyId].generation) in s.retired then s.retired
    else s.retired[(keyId, s.keys[keyId].generation) := s.now]
  }

  /** Generating or rotating a secret never brings an earlier generation back. */
  predicate Enabled(s: State, step: Step) {
    match step
    case Tick(_) => true
    case KeyLogin(k, _, _, _, _, w) => IsServiceKeyId(k) && w.jti != ""
    case PutKey(k, r) => (k, r.generation) !in s.retired && (k in s.keys ==> s.keys[k].generation != r.generation)
    case RevokeKey(k) => k in s.keys
    case _ => step.w.jti != ""
  }

  function KeyTable(s: State, step: Step): map<string, KeyRecord> {
    match step
    case PutKey(k, r) => s.keys[k := r]
    case RevokeKey(k) => if k in s.keys then s.keys[k := s.keys[k].(live := false)] else s.keys
    case _ => s.keys
  }

  ghost function Next(cfg: Config, s: State, step: Step): State {
    State(if step.Tick? then s.now + step.elapsed else s.now,
          s.log + Outcome(cfg, s, step),
          HandoffGuards(s, step), AssertionGuards(s, step), KeyTable(s, step),
          if step.PutKey? || step.RevokeKey? then Retire(s, step.keyId) else s.retired)
  }

  ghost predicate ValidRun(cfg: Config, s: State, steps: seq<Step>)
    decreases |steps|
  {
    steps == [] || (Enabled(s, steps[0]) && ValidRun(cfg, Next(cfg, s, steps[0]), steps[1..]))
  }

  ghost function Exec(cfg: Config, s: State, steps: seq<Step>): State
    decreases |steps|
  {
    if steps == [] then s else Exec(cfg, Next(cfg, s, steps[0]), steps[1..])
  }

  predicate Initial(s: State) {
    s.log == [] && s.handoffSeen == map[] && s.assertionSeen == map[] && s.retired == map[]
  }
}
