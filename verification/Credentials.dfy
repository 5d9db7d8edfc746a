/**
  The five signed credentials the bridge mints, as the claims each carries, and the four doors
  that take one. Signatures are ideal, so a credential is its claims; an absent claim is None
  and reads as the default the door asks for.
*/
module Credentials {

  datatype Option<+T> = None | Some(value: T) {
    function Or(default: T): T { if Some? then value else default }
  }

  /** {tenant: [roles]} */
  type Roles = map<string, seq<string>>

  datatype Claims = Claims(
    sub: string, tenant: string, iat: int, exp: int,
    jti: Option<string>, roles: Option<Roles>, amr: Option<seq<string>>, aip: Option<string>,
    skid: Option<string>, skgen: Option<string>,
    svc: bool, scope: Option<string>,
    sso: Option<string>,
    mfaPending: bool, mip: Option<string>,
    typ: Option<string>, dl: Option<string>, sid: Option<string>, mt: Option<string>)

  /** Who a request acts as. */
  datatype Identity = Identity(
    user: string, tenant: string, roles: seq<string>, amr: seq<string>, sessionJti: string,
    keyId: string, keyGen: string)

  function NonEmpty(s: string): Option<string> { if s == "" then None else Some(s) }

  function Bare(sub: string, tenant: string, now: int, ttl: int): Claims {
    Claims(sub, tenant, now, now + ttl, None, None, None, None, None, None, false, None, None,
           false, None, None, None, None, None)
  }

  // ---- first tenant of an ordered role map -------------------------------------------

  predicate LexLe(a: string, b: string)
    decreases |a|
  {
    a == [] || (b != [] && (a[0] < b[0] || (a[0] == b[0] && LexLe(a[1..], b[1..]))))
  }

  /** The strings agree before `k`, and there `a` ends or has the smaller character. */
  ghost predicate BelowAt(a: string, b: string, k: int) {
    && 0 <= k <= |a| && k <= |b| && (forall i :: 0 <= i < k ==> a[i] == b[i])
    && (k == |a| || (k < |b| && a[k] < b[k]))
  }

  lemma BelowAtTail(a: string, b: string, k: int)
    requires a != [] && b != [] && a[0] == b[0] && k > 0
    ensures BelowAt(a, b, k) <==> BelowAt(a[1..], b[1..], k - 1)
  {
    if BelowAt(a[1..], b[1..], k - 1) {
      forall i | 0 <= i < k ensures a[i] == b[i] {
        if i > 0 { assert a[1..][i - 1] == b[1..][i - 1]; }
      }
    }
  }

  /** The order of byte strings: a prefix comes first, else the smaller character where they part. */
  lemma {:induction false} LexLeIff(a: string, b: string)
    ensures LexLe(a, b) <==> exists k :: BelowAt(a, b, k)
    decreases |a|
  {
    if a == [] || b == [] || a[0] != b[0] {
      assert LexLe(a, b) ==> BelowAt(a, b, 0);
    } else {
      LexLeIff(a[1..], b[1..]);
      if k :| BelowAt(a[1..], b[1..], k) { BelowAtTail(a, b, k + 1); }
      if k :| BelowAt(a, b, k) { BelowAtTail(a, b, k); }
    }
  }

  lemma {:induction false} LexTotal(a: string, b: string)
    ensures LexLe(a, b) || LexLe(b, a)
    decreases |a|
  {
    if a == [] || b == [] || a[0] != b[0] {
    } else {
      LexTotal(a[1..], b[1..]);
    }
  }

  lemma {:induction false} LexTransitive(a: string, b: string, c: string)
    requires LexLe(a, b) && LexLe(b, c)
    ensures LexLe(a, c)
    decreases |a|
  {
    if a == [] || !(a[0] == b[0] == c[0]) {
    } else {
      LexTransitive(a[1..], b[1..], c[1..]);
    }
  }

  ghost predicate IsFirst(keys: set<string>, k: string) {
    k in keys && forall x :: x in keys ==> LexLe(k, x)
  }

  lemma {:induction false} FindFirst(keys: set<string>) returns (k: string)
    requires keys != {}
    ensures IsFirst(keys, k)
  {
    var x :| x in keys;
    LexTotal(x, x);
    if keys == {x} {
      k := x;
    } else {
      assert keys - {x} != {} by { assert keys != {x}; }
      var y := FindFirst(keys - {x});
      LexTotal(x, y);
      k := if LexLe(x, y) then x else y;
      forall z | z in keys ensures LexLe(k, z) {
        if z != x {
          assert z in keys - {x} && LexLe(y, z);
          if LexLe(x, y) { LexTransitive(x, y, z); }
        } else {
          LexTotal(x, x);
        }
      }
    }
  }

  lemma FirstExists(keys: set<string>)
    requires keys != {}
    ensures exists k :: IsFirst(keys, k)
  {
    var k := FindFirst(keys);
  }

  ghost function FirstTenant(byTenant: Roles): (k: string)
    requires byTenant != map[]
    ensures IsFirst(byTenant.Keys, k)
  {
    assert byTenant.Keys != {} by { assert byTenant != map[]; }
    FirstExists(byTenant.Keys);
    var k :| IsFirst(byTenant.Keys, k);
    k
  }

  // ---- minting -----------------------------------------------------------------------

  function RolesForKeySession(byTenant: Roles, tenant: string): Roles {
    if tenant in byTenant then map[tenant := byTenant[tenant]] else map[]
  }

  /** The tenant a session is stamped with: the requested one unless the roles say otherwise. */
  ghost function StampedTenant(byTenant: Roles, active: string): string {
    if byTenant != map[] && active !in byTenant then FirstTenant(byTenant) else active
  }

  ghost function SessionClaims(
      user: string, active: string, amr: seq<string>, byTenant: Roles, jti: string, aip: string,
      keyId: string, keyGen: string, now: int, ttl: int): Claims
  {
    var roles := if keyId == "" then byTenant else RolesForKeySession(byTenant, active);
    Bare(user, StampedTenant(roles, active), now, ttl)
      .(jti := Some(jti), roles := Some(roles), amr := Some(amr), aip := NonEmpty(aip),
        skid := NonEmpty(keyId), skgen := if keyId == "" then None else Some(keyGen))
  }

  function ServiceClaims(
      sub: string, tenant: string, roles: seq<string>, aip: string, scope: string, jti: string, now: int, ttl: int)
    : Claims
  {
    Bare(sub, tenant, now, ttl)
      .(jti := Some(jti), svc := true, aip := NonEmpty(aip), scope := NonEmpty(scope),
        roles := Some(map[tenant := roles]), amr := Some(["integration"]))
  }

  function HandoffClaims(sub: string, tenant: string, jti: string, now: int, ttl: int, amr: seq<string>): Claims {
    Bare(sub, tenant, now, ttl).(sso := Some("handoff"), jti := Some(jti), amr := Some(amr))
  }

  function PendingClaims(sub: string, tenant: string, ip: string, jti: string, now: int, ttl: int): Claims {
    Bare(sub, tenant, now, ttl).(jti := Some(jti), mfaPending := true, mip := Some(ip), amr := Some(["pwd"]))
  }

  function TicketClaims(id: Identity, uid: string, typ: string, mt: string, now: int, ttl: int): Claims {
    Bare(id.user, id.tenant, now, ttl)
      .(typ := Some(typ), dl := Some(uid), sid := NonEmpty(id.sessionJti),
        roles := Some(map[id.tenant := id.roles]), mt := NonEmpty(mt))
  }

  const PLAYBACK_TICKET_MAX_TTL := 1800

  function ClampPlaybackTtl(configured: int): (ttl: int)
    ensures 0 < ttl <= PLAYBACK_TICKET_MAX_TTL
    ensures 0 < configured <= PLAYBACK_TICKET_MAX_TTL ==> ttl == configured
  {
    if configured <= 0 then PLAYBACK_TICKET_MAX_TTL
    else if configured < PLAYBACK_TICKET_MAX_TTL then configured else PLAYBACK_TICKET_MAX_TTL
  }

  /** The stamped tenant is the requested one exactly when the roles contain it or are empty. */
  lemma StampIff(byTenant: Roles, active: string)
    ensures StampedTenant(byTenant, active) == active <==> byTenant == map[] || active in byTenant
    ensures byTenant != map[] ==> StampedTenant(byTenant, active) in byTenant
    ensures byTenant != map[] && active !in byTenant ==> IsFirst(byTenant.Keys, StampedTenant(byTenant, active))
  {}

  /** A key session is stamped with its key's tenant and holds roles in no other. */
  lemma KeySessionIsConfined(
      user: string, tenant: string, amr: seq<string>, byTenant: Roles, jti: string, aip: string,
      keyId: string, keyGen: string, now: int, ttl: int)
    requires keyId != ""
    ensures var c := SessionClaims(user, tenant, amr, byTenant, jti, aip, keyId, keyGen, now, ttl);
            c.tenant == tenant && c.roles.Some? && c.roles.value.Keys <= {tenant}
            && c.skid == Some(keyId) && c.skgen == Some(keyGen)
  {}

  // ---- reading -------------------------------------------------------------------------

  predicate IsTicketType(typ: string) { typ == "download" || typ == "playback" }

  predicate TokenTenantMember(c: Claims, tenant: string) {
    tenant != "" && c.roles.Some? && tenant in c.roles.value
  }

  function IdentityFromClaims(c: Claims, active: string): Identity {
    Identity(c.sub, active,
             if TokenTenantMember(c, active) then c.roles.value[active] else [],
             c.amr.Or([]), c.jti.Or(""), c.skid.Or(""), c.skgen.Or(""))
  }

  predicate IsSecondFactor(m: string) {
    m == "otp" || m == "totp" || m == "email" || m == "recovery" || m == "oauth" || m == "svc"
  }

  predicate SatisfiesSecondFactor(amr: seq<string>) {
    exists i :: 0 <= i < |amr| && IsSecondFactor(amr[i])
  }

  lemma SecondFactorOfConcat(a: seq<string>, b: seq<string>)
    ensures SatisfiesSecondFactor(a + b) <==> SatisfiesSecondFactor(a) || SatisfiesSecondFactor(b)
  {
    if SatisfiesSecondFactor(a) {
      var i :| 0 <= i < |a| && IsSecondFactor(a[i]);
      assert (a + b)[i] == a[i];
    }
    if SatisfiesSecondFactor(b) {
      var i :| 0 <= i < |b| && IsSecondFactor(b[i]);
      assert (a + b)[|a| + i] == b[i];
    }
  }

  lemma SecondFactorOfOne(m: string)
    ensures SatisfiesSecondFactor([m]) <==> IsSecondFactor(m)
  {
    assert [m][0] == m;
  }

  /** The methods the bridge itself writes that are not second factors. */
  lemma WeakMethods()
    ensures !IsSecondFactor("pwd") && !IsSecondFactor("sso") && !IsSecondFactor("integration")
    ensures IsSecondFactor("totp") && IsSecondFactor("oauth") && IsSecondFactor("svc")
  {
    assert |"totp"| == 4 && |"oauth"| == 5 && |"integration"| == 11;
    assert "pwd"[0] == 'p' && "sso"[0] == 's' && "otp"[0] == 'o';
    assert "sso"[1] == 's' && "svc"[1] == 'v' && "pwd"[0] != 's';
  }

  /** Bearer: a resource request presenting claims whose signature and expiry hold. */
  function BearerDoor(c: Claims, permits: bool, xTenant: string, mfaEnabled: bool, demands2fa: bool): Option<Identity> {
    var active := if xTenant != "" then xTenant else c.tenant;
    if !permits || c.mfaPending || IsTicketType(c.typ.Or("")) || !TokenTenantMember(c, active) then None
    else
      var id := IdentityFromClaims(c, active);
      if mfaEnabled && !SatisfiesSecondFactor(id.amr) && demands2fa then None else Some(id)
  }

  predicate RedeemDoor(c: Claims) { c.sso.Or("") == "handoff" && c.sub != "" }

  predicate SecondFactorDoor(c: Claims, ip: string) { c.mfaPending && c.sub != "" && c.mip.Or("") == ip }

  datatype TicketCheck = Ok | WrongType | WrongUid

  function CheckTicketClaims(c: Claims, uid: string): TicketCheck {
    if !IsTicketType(c.typ.Or("")) then WrongType else if c.dl.Or("") != uid then WrongUid else Ok
  }

  /** Ticketed content: the session a ticket names must not be signed out. */
  function TicketDoor(c: Claims, uid: string, permits: bool, gate: bool): Option<Identity> {
    if CheckTicketClaims(c, uid) != Ok || (c.sid.Or("") != "" && !permits) || !gate then None
    else Some(IdentityFromClaims(c, c.tenant))
  }

  // ---- kinds and doors -----------------------------------------------------------------

  datatype Kind = Session | Service | Handoff | Pending | Ticket

  predicate HasKind(c: Claims, k: Kind) {
    match k
    case Session => c.sso.None? && !c.mfaPending && c.typ.None? && c.roles.Some? && c.amr.Some? && !c.svc
    case Service => c.sso.None? && !c.mfaPending && c.typ.None? && c.roles.Some? && c.amr.Some? && c.svc && c.skid.None?
    case Handoff => c.sso == Some("handoff") && !c.mfaPending && c.typ.None? && c.roles.None? && c.amr.Some?
                    && c.jti.Or("") != ""
    case Pending => c.sso.None? && c.mfaPending && c.typ.None? && c.roles.None?
    case Ticket => c.sso.None? && !c.mfaPending && c.typ.Some? && IsTicketType(c.typ.value)
  }

  /** Which door is a kind's own. */
  datatype Door = Bearer | Redeem | SecondFactor | Content

  function OwnDoor(k: Kind): Door {
    match k
    case Session => Bearer
    case Service => Bearer
    case Handoff => Redeem
    case Pending => SecondFactor
    case Ticket => Content
  }

  /** Some request to this door could be let through on these claims. */
  ghost predicate MayOpen(c: Claims, d: Door) {
    match d
    case Bearer => exists x, p, m, r :: BearerDoor(c, p, x, m, r).Some?
    case Redeem => RedeemDoor(c)
    case SecondFactor => exists ip :: SecondFactorDoor(c, ip)
    case Content => exists uid, p, g :: TicketDoor(c, uid, p, g).Some?
  }

  /** A credential opens its own kind's door or none. */
  lemma KindsNeverCross(c: Claims, k: Kind, d: Door)
    requires HasKind(c, k) && MayOpen(c, d)
    ensures d == OwnDoor(k)
  {
    match d
    case Bearer =>
      var x, p, m, r :| BearerDoor(c, p, x, m, r).Some?;
    case Redeem =>
      assert |"handoff"| == 7;
    case SecondFactor =>
    case Content =>
      var uid, p, g :| TicketDoor(c, uid, p, g).Some?;
      assert |"download"| == 8 && |"playback"| == 8;
  }

  /** A ticket opens its own uid only, and gives back the user, tenant and roles it was minted with. */
  lemma TicketRoundTrip(
      id: Identity, uid: string, typ: string, mt: string, now: int, ttl: int, asked: string, permits: bool, gate: bool)
    requires IsTicketType(typ) && id.tenant != ""
    ensures var door := TicketDoor(TicketClaims(id, uid, typ, mt, now, ttl), asked, permits, gate);
            && (door.Some? <==> asked == uid && (id.sessionJti == "" || permits) && gate)
            && (door.Some? ==>
                  && door.value.user == id.user && door.value.tenant == id.tenant
                  && door.value.roles == id.roles)
  {}

  // ---- what the claims give back -------------------------------------------------------------

  /** A session gives back who it was minted for, in each tenant with exactly the roles held there. */
  lemma SessionReadsBack(
      user: string, active: string, amr: seq<string>, byTenant: Roles, jti: string, aip: string,
      keyId: string, keyGen: string, now: int, ttl: int, t: string)
    ensures var c := SessionClaims(user, active, amr, byTenant, jti, aip, keyId, keyGen, now, ttl);
            && HasKind(c, Session) && c.iat == now && c.exp == now + ttl && c.aip.Or("") == aip
            && (TokenTenantMember(c, t) <==> t != "" && t in byTenant && (keyId == "" || t == active))
            && var id := IdentityFromClaims(c, t);
            && id.user == user && id.tenant == t && id.amr == amr && id.sessionJti == jti
            && id.keyId == keyId && (keyId != "" ==> id.keyGen == keyGen)
            && id.roles == if TokenTenantMember(c, t) then byTenant[t] else []
  {}

  /** A service token gives back its principal, in its one tenant, with the configured roles. */
  lemma ServiceReadsBack(
      sub: string, tenant: string, roles: seq<string>, aip: string, scope: string, jti: string, now: int, ttl: int,
      t: string)
    ensures var c := ServiceClaims(sub, tenant, roles, aip, scope, jti, now, ttl);
            && HasKind(c, Service) && c.iat == now && c.exp == now + ttl
            && c.aip.Or("") == aip && c.scope.Or("") == scope
            && (TokenTenantMember(c, t) <==> t != "" && t == tenant)
            && (t != "" && t == tenant ==>
                  IdentityFromClaims(c, t) == Identity(sub, t, roles, ["integration"], jti, "", ""))
  {}

  /** A hand-off code opens the redeem door with its own user, tenant and methods. */
  lemma HandoffReadsBack(sub: string, tenant: string, jti: string, now: int, ttl: int, amr: seq<string>)
    ensures var c := HandoffClaims(sub, tenant, jti, now, ttl, amr);
            && (RedeemDoor(c) <==> sub != "")
            && c.sub == sub && c.tenant == tenant && c.jti == Some(jti) && c.amr == Some(amr)
            && c.iat == now && c.exp == now + ttl
  {}

  /** A challenge opens the second-factor door from the address it was issued to, and from no other. */
  lemma PendingReadsBack(sub: string, tenant: string, ip: string, jti: string, now: int, ttl: int, from: string)
    ensures var c := PendingClaims(sub, tenant, ip, jti, now, ttl);
            && (SecondFactorDoor(c, from) <==> sub != "" && from == ip)
            && c.sub == sub && c.tenant == tenant && c.iat == now && c.exp == now + ttl
  {}
}
