/**
  The tenant-state gate: which lifecycle states admit, what a refusal says, and how soon a
  change of state in the registry reaches requests that go through the gate's cache. Also the
  second-factor requirement, which is cached the same way. Both are a class, as the source writes
  them for one caller, and an instance of `Authority` for every interleaving; the two are tied.
*/
module TenantGate {
  import T = TtlCache
  import opened Authority

  // ---- the policy -------------------------------------------------------------------

  /** What the registry holds for a tenant. */
  datatype Row = NoRow | Row(state: string)

  predicate Admits(state: string) { state == "live" }

  predicate Known(state: string) {
    state == "requested" || state == "awaiting_dns" || state == "provisioning" || state == "live"
    || state == "suspended" || state == "decommissioning" || state == "decommissioned"
  }

  predicate AdmitsOrRefusesUnknown(state: string, succeeded: bool) {
    succeeded && Known(state) && Admits(state)
  }

  /** Why a tenant is refused; `Text` is what the caller is told. */
  datatype Reason =
    | Undetermined | Suspended | Provisioning | NotYetProvisioned
    | Decommissioning | Decommissioned | NotRecognised | Admitted
  {
    function Text(): string {
      match this
      case Undetermined => "tenant status could not be determined; access is refused until it can"
      case Suspended => "this tenant is suspended"
      case Provisioning => "this tenant is still being provisioned"
      case NotYetProvisioned => "this tenant is not yet provisioned"
      case Decommissioning => "this tenant is being decommissioned"
      case Decommissioned => "this tenant has been decommissioned"
      case NotRecognised => "tenant status is not recognised by this build; access is refused"
      case Admitted => ""
    }
  }

  function RefusalReason(state: string, succeeded: bool): Reason {
    if !succeeded then Undetermined
    else if state == "suspended" then Suspended
    else if state == "provisioning" then Provisioning
    else if state == "requested" || state == "awaiting_dns" then NotYetProvisioned
    else if state == "decommissioning" then Decommissioning
    else if state == "decommissioned" then Decommissioned
    else if !Known(state) then NotRecognised
    else Admitted
  }

  function RefusalCode(state: string, succeeded: bool): string {
    if !succeeded || !Known(state) then "tenant_state_unknown"
    else if state == "live" then ""
    else "tenant_" + state
  }

  datatype Decision = Decision(admits: bool, code: string, reason: Reason)

  /** A failed lookup and a missing row are treated alike. */
  function Decide(reply: Reply<Row>): Decision {
    var ok := reply.Found? && reply.value.Row?;
    var state := if ok then reply.value.state else "";
    Decision(AdmitsOrRefusesUnknown(state, ok), RefusalCode(state, ok), RefusalReason(state, ok))
  }

  const LIVE: Reply<Row> := Found(Row("live"))

  lemma CodeEmptyIff(state: string, succeeded: bool)
    ensures RefusalCode(state, succeeded) == "" <==> succeeded && state == "live"
  {
    assert |"tenant_" + state| >= 7;
  }

  lemma ReasonIsAdmittedIff(state: string, succeeded: bool)
    ensures RefusalReason(state, succeeded).Admitted? <==> succeeded && state == "live"
  {}

  lemma TextIsEmptyIff(r: Reason)
    ensures r.Text() == "" <==> r.Admitted?
  {
    assert |r.Text()| == 0 <==> r.Admitted?;
  }

  /** Only a row that says live admits, and a refusal always has a code and a reason to give. */
  lemma DecideAdmitsOnlyLive(reply: Reply<Row>)
    ensures Decide(reply).admits <==> reply == LIVE
    ensures !Decide(reply).admits <==> Decide(reply).code != ""
    ensures !Decide(reply).admits <==> Decide(reply).reason.Text() != ""
  {
    var ok := reply.Found? && reply.value.Row?;
    var state := if ok then reply.value.state else "";
    CodeEmptyIff(state, ok);
    ReasonIsAdmittedIff(state, ok);
    TextIsEmptyIff(RefusalReason(state, ok));
  }

  /** Which state is refused with which reason. */
  lemma ReasonIff(state: string, succeeded: bool)
    ensures var r := RefusalReason(state, succeeded);
            && (r.Undetermined? <==> !succeeded)
            && (r.Suspended? <==> succeeded && state == "suspended")
            && (r.Provisioning? <==> succeeded && state == "provisioning")
            && (r.NotYetProvisioned? <==> succeeded && (state == "requested" || state == "awaiting_dns"))
            && (r.Decommissioning? <==> succeeded && state == "decommissioning")
            && (r.Decommissioned? <==> succeeded && state == "decommissioned")
            && (r.Admitted? <==> succeeded && state == "live")
            && (r.NotRecognised? <==> succeeded && !Known(state))
  {}

  /** Which code it is refused with: the state's own, or the one for a state nobody could determine. */
  lemma CodeIff(state: string, succeeded: bool)
    ensures succeeded && Known(state) && state != "live" ==> RefusalCode(state, succeeded) == "tenant_" + state
    ensures !succeeded || !Known(state) ==> RefusalCode(state, succeeded) == "tenant_state_unknown"
  {}

  /** An undeterminable state is never reported as a suspension, and each known state has its own code. */
  lemma RefusalsAreDistinct(a: string, b: string)
    requires Known(a) && Known(b) && RefusalCode(a, true) == RefusalCode(b, true)
    ensures a == b
    ensures RefusalCode(a, true) != RefusalCode(a, false)
  {
    assert ("tenant_" + a)[7..] == a && ("tenant_" + b)[7..] == b;
    assert ("tenant_" + "state_unknown")[7..] == "state_unknown";
    assert "tenant_state_unknown" == "tenant_" + "state_unknown";
  }

  // ---- the gate as the door calls it --------------------------------------------------

  type GateCache = map<string, T.Entry<Decision>>

  /** A refusal is reused for a shorter time than an admission. */
  function DecisionLife(): Decision -> int {
    (d: Decision) => if d.admits then 60 else 10
  }

  /** Some lookup of the tenant, later than `after`, found its row live (or did not). */
  ghost predicate Looked(lookups: seq<Asked<Row>>, tenant: string, live: bool, after: int) {
    exists m :: 0 <= m < |lookups| && lookups[m].tenant == tenant && lookups[m].at > after
                && (lookups[m].reply == LIVE <==> live)
  }

  lemma BackedMeans(lookups: seq<Asked<Row>>, tenant: string, d: Decision, now: int)
    requires Backed(lookups, Decide, DecisionLife(), tenant, d, now + 1)
    ensures Looked(lookups, tenant, d.admits, now - (if d.admits then 60 else 10))
  {
    var m :| 0 <= m < |lookups| && lookups[m].tenant == tenant && Decide(lookups[m].reply) == d
             && now + 1 <= lookups[m].at + DecisionLife()(d);
    DecideAdmitsOnlyLive(lookups[m].reply);
  }

  class Gate {
    var cache: GateCache
    ghost var lookups: seq<Asked<Row>>

    ghost predicate Valid()
      reads this
    {
      AllBacked(lookups, Decide, DecisionLife(), cache)
    }

    constructor ()
      ensures Valid() && cache == map[] && lookups == []
    {
      cache, lookups := map[], [];
    }

    /**
      `reply` is what the registry answers at `at`, when nothing fresh is cached. Whatever was asked
      before: a tenant is admitted only if some lookup later than `now` - 60 found it live, and
      refused only if one later than `now` - 10 failed, found no row or found another state.
    */
    method TenantAdmits(tenant: string, now: int, ghost at: int, reply: Reply<Row>) returns (d: Decision)
      requires Valid() && now <= at
      modifies this
      ensures Valid()
      ensures tenant == "" ==> d == Decide(Failed) && cache == old(cache) && lookups == old(lookups)
      ensures tenant != "" ==>
                && d == T.Verdict(old(cache), tenant, now, Decide(reply))
                && cache == T.CacheAfter(DecisionLife(), old(cache), old(cache), tenant, now, Decide(reply))
                && lookups == LookupsAfter(old(lookups), old(cache), tenant, now, at, reply)
      ensures d.admits ==> tenant != "" && Looked(lookups, tenant, true, now - 60)
      ensures !d.admits && tenant != "" ==> Looked(lookups, tenant, false, now - 10)
    {
      if tenant == "" { return Decide(Failed); }
      CallKeepsBacked(lookups, Decide, DecisionLife(), cache, tenant, now, at, reply);
      lookups := LookupsAfter(lookups, cache, tenant, now, at, reply);
      if tenant in cache && now < cache[tenant].until {
        d := cache[tenant].verdict;
      } else {
        d := Decide(reply);
        var until := now + if d.admits then 60 else 10;
        cache := cache[tenant := T.Entry(d, until)];
      }
      BackedMeans(lookups, tenant, d, now);
    }
  }

  // ---- the gate under concurrency -------------------------------------------------------

  /**
    Under concurrency the cached verdict is the lookup result a decision was computed from;
    `Decide` turns it into what the request is told.
  */
  function GatePolicy(): Policy<Row> {
    Policy((r: Reply<Row>) => if r == LIVE then 60 else 10, NoRow)
  }

  /** Uninterleaved, a request's steps tell it exactly what the class does and leave exactly its cache. */
  lemma GateIsSteps(s: State<Row>, c: int, i: int, t: string, wait: nat, up: bool)
    requires c !in s.core.calls && t != ""
    ensures var s' := CallAlone(GatePolicy(), s, c, i, t, wait, up);
            var cache := Judged(Decide, T.CacheOf(s.core, i));
            var decided := Decide(Answer(GatePolicy(), s, t, up));
            && c in s'.core.calls && s'.core.calls[c].Done?
            && Decide(s'.core.calls[c].verdict) == T.Verdict(cache, t, s.core.now, decided)
            && Judged(Decide, T.CacheOf(s'.core, i))
               == T.CacheAfter(DecisionLife(), cache, cache, t, s.core.now, decided)
  {
    DecideAdmitsOnlyLive(Answer(GatePolicy(), s, t, up));
    JudgedCallIsSteps(Decide, GatePolicy(), DecisionLife(), s, c, i, t, wait, up);
  }

  /**
    A finished gate call that read the clock at `start` admits only if, later than
    `start` - 60 and not after it finished, a lookup found the tenant's row live; it refuses
    only if, later than `start` - 10, a lookup failed, found no row or found another state.
  */
  lemma GateFreshness(s0: State<Row>, steps: seq<Step<Row>>, c: int) returns (m: nat)
    requires Finished(GatePolicy(), s0, steps, c)
    ensures var log, d := Exec(GatePolicy(), s0, steps).core.log, Exec(GatePolicy(), s0, steps).core.calls[c];
            && m < |log| && log[m].Answer? && log[m].key == d.key && log[m].verdict == d.verdict
            && log[m].at <= d.finish
            && (Decide(d.verdict).admits ==>
                  log[m].at > d.start - 60 && ValueAt(GatePolicy(), log, m, d.key) == Row("live"))
            && (!Decide(d.verdict).admits ==>
                  && log[m].at > d.start - 10
                  && (d.verdict.Failed? || ValueAt(GatePolicy(), log, m, d.key) != Row("live")))
  {
    Freshness(GatePolicy(), s0, steps, c);
    m := Exec(GatePolicy(), s0, steps).core.calls[c].source;
    DecideAdmitsOnlyLive(Exec(GatePolicy(), s0, steps).core.calls[c].verdict);
  }

  /** A suspension (any non-live row that stays) is refused by every call that starts 60 s after it. */
  lemma SuspensionBites(s0: State<Row>, steps: seq<Step<Row>>, w: nat, c: int)
    requires Finished(GatePolicy(), s0, steps, c)
    requires var log, d := Exec(GatePolicy(), s0, steps).core.log, Exec(GatePolicy(), s0, steps).core.calls[c];
             ChangedFor(log, w, d.key, (r: Row) => r != Row("live")) && log[w].at + 60 <= d.start
    ensures !Decide(Exec(GatePolicy(), s0, steps).core.calls[c].verdict).admits
  {
    DecideAdmitsOnlyLive(Exec(GatePolicy(), s0, steps).core.calls[c].verdict);
    ChangeBites(GatePolicy(), s0, steps, w, c, (r: Row) => r != Row("live"));
  }

  /** A tenant back in service is admitted by every call that starts 10 s after it, if lookups succeed. */
  lemma ReturnBites(s0: State<Row>, steps: seq<Step<Row>>, w: nat, c: int)
    requires Finished(GatePolicy(), s0, steps, c)
    requires var log, d := Exec(GatePolicy(), s0, steps).core.log, Exec(GatePolicy(), s0, steps).core.calls[c];
             && ChangedFor(log, w, d.key, (r: Row) => r == Row("live")) && log[w].at + 10 <= d.start
             && (forall m: nat :: w < m < |log| && log[m].Answer? && log[m].key == d.key ==> log[m].verdict.Found?)
    ensures Decide(Exec(GatePolicy(), s0, steps).core.calls[c].verdict).admits
  {
    var d := Exec(GatePolicy(), s0, steps).core.calls[c];
    DecideAdmitsOnlyLive(d.verdict);
    if d.verdict != LIVE {
      Freshness(GatePolicy(), s0, steps, c);
      ChangeBites(GatePolicy(), s0, steps, w, c, (r: Row) => r == Row("live"));
      assert false;
    }
  }

  // ---- the second-factor requirement ------------------------------------------------------

  /** Does the identity service's answer demand a second factor? No answer counts as a demand. */
  function Demands(m: Reply<bool>): bool { m.Failed? || m.value }

  function DemandLife(): bool -> int { (b: bool) => 30 }

  /** A tenant mandates nothing until it says so. */
  function MandatePolicy(): Policy<bool> { Policy((r: Reply<bool>) => 30, false) }

  /** Some lookup of the tenant, later than `after`, failed or found the mandate as `demanded` says. */
  ghost predicate Mandated(lookups: seq<Asked<bool>>, tenant: string, demanded: bool, after: int) {
    exists m :: 0 <= m < |lookups| && lookups[m].tenant == tenant && lookups[m].at > after
                && (lookups[m].reply == Found(demanded) || (lookups[m].reply.Failed? && demanded))
  }

  lemma MandateBacked(lookups: seq<Asked<bool>>, tenant: string, r: bool, now: int)
    requires Backed(lookups, Demands, DemandLife(), tenant, r, now + 1)
    ensures Mandated(lookups, tenant, r, now - 30)
  {
    var m :| 0 <= m < |lookups| && lookups[m].tenant == tenant && Demands(lookups[m].reply) == r
             && now + 1 <= lookups[m].at + DemandLife()(r);
  }

  class RequirementCache {
    var cache: map<string, T.Entry<bool>>
    ghost var lookups: seq<Asked<bool>>

    ghost predicate Valid()
      reads this
    {
      AllBacked(lookups, Demands, DemandLife(), cache)
    }

    constructor ()
      ensures Valid() && cache == map[] && lookups == []
    {
      cache, lookups := map[], [];
    }

    /**
      Whatever was asked before, a tenant is taken to demand a second factor, or not to, only on a
      lookup later than `now` - 30 that found its mandate so; a failed one counts as a demand.
    */
    method TenantRequires2fa(tenant: string, now: int, ghost at: int, mandate: Reply<bool>) returns (r: bool)
      requires Valid() && now <= at
      modifies this
      ensures Valid()
      ensures r == T.Verdict(old(cache), tenant, now, Demands(mandate))
      ensures cache == T.CacheAfter(DemandLife(), old(cache), old(cache), tenant, now, Demands(mandate))
      ensures lookups == LookupsAfter(old(lookups), old(cache), tenant, now, at, mandate)
      ensures Mandated(lookups, tenant, r, now - 30)
    {
      CallKeepsBacked(lookups, Demands, DemandLife(), cache, tenant, now, at, mandate);
      lookups := LookupsAfter(lookups, cache, tenant, now, at, mandate);
      if tenant in cache && cache[tenant].until > now {
        r := cache[tenant].verdict;
      } else {
        r := if mandate.Found? then mandate.value else true;
        cache := cache[tenant := T.Entry(r, now + 30)];
      }
      MandateBacked(lookups, tenant, r, now);
    }
  }

  /** Uninterleaved, a request's steps decide exactly what the class does and leave exactly its cache. */
  lemma RequirementIsSteps(s: State<bool>, c: int, i: int, t: string, wait: nat, up: bool)
    requires c !in s.core.calls && t != ""
    ensures var s' := CallAlone(MandatePolicy(), s, c, i, t, wait, up);
            var cache := Judged(Demands, T.CacheOf(s.core, i));
            var demand := Demands(Answer(MandatePolicy(), s, t, up));
            && c in s'.core.calls && s'.core.calls[c].Done?
            && Demands(s'.core.calls[c].verdict) == T.Verdict(cache, t, s.core.now, demand)
            && Judged(Demands, T.CacheOf(s'.core, i))
               == T.CacheAfter(DemandLife(), cache, cache, t, s.core.now, demand)
  {
    JudgedCallIsSteps(Demands, MandatePolicy(), DemandLife(), s, c, i, t, wait, up);
  }

  /**
    Under any interleaving a finished request demands a second factor, or does not, only on a lookup
    later than its start - 30 that failed (and then it demands) or found the tenant's mandate so.
  */
  lemma RequirementFreshness(s0: State<bool>, steps: seq<Step<bool>>, c: int) returns (m: nat)
    requires Finished(MandatePolicy(), s0, steps, c)
    ensures var log, d := Exec(MandatePolicy(), s0, steps).core.log, Exec(MandatePolicy(), s0, steps).core.calls[c];
            && m < |log| && log[m].Answer? && log[m].key == d.key && log[m].verdict == d.verdict
            && d.start - 30 < log[m].at <= d.finish
            && (d.verdict.Failed? ==> Demands(d.verdict))
            && (d.verdict.Found? ==> Demands(d.verdict) == ValueAt(MandatePolicy(), log, m, d.key))
  {
    Freshness(MandatePolicy(), s0, steps, c);
    m := Exec(MandatePolicy(), s0, steps).core.calls[c].source;
  }

  /** A mandate switched on, and kept, is enforced on every call that starts 30 s after it, lookups or no lookups. */
  lemma MandateBites(s0: State<bool>, steps: seq<Step<bool>>, w: nat, c: int)
    requires Finished(MandatePolicy(), s0, steps, c)
    requires var log, d := Exec(MandatePolicy(), s0, steps).core.log, Exec(MandatePolicy(), s0, steps).core.calls[c];
             ChangedFor(log, w, d.key, (on: bool) => on) && log[w].at + 30 <= d.start
    ensures Demands(Exec(MandatePolicy(), s0, steps).core.calls[c].verdict)
  {
    ChangeBites(MandatePolicy(), s0, steps, w, c, (on: bool) => on);
  }

  /** A mandate lifted for good stops being demanded 30 s later, exactly on the calls whose lookup succeeded. */
  lemma MandateLifts(s0: State<bool>, steps: seq<Step<bool>>, w: nat, c: int)
    requires Finished(MandatePolicy(), s0, steps, c)
    requires var log, d := Exec(MandatePolicy(), s0, steps).core.log, Exec(MandatePolicy(), s0, steps).core.calls[c];
             ChangedFor(log, w, d.key, (on: bool) => !on) && log[w].at + 30 <= d.start
    ensures var d := Exec(MandatePolicy(), s0, steps).core.calls[c];
            Demands(d.verdict) <==> d.verdict.Failed?
  {
    ChangeBites(MandatePolicy(), s0, steps, w, c, (on: bool) => !on);
  }
}
