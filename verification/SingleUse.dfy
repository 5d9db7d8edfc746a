/**
  Exactly when a single-use credential works, over whole runs. Each process's guard is shown to be
  a run of `ReplayGuard` on the codes, or the assertions, presented to that process; so what is
  proved there about sequences of calls decides which redeems and exchanges mint.
*/
module SingleUse {
  import opened Credentials
  import opened Lifecycle
  import opened LifecycleTheorems
  import opened LifecycleGuards
  import G = ReplayGuard

  // ---- a guard is a run of ReplayGuard -------------------------------------------------------

  /** The use, if any, that a step puts to its process's guard. */
  function Puts(s: State, step: Step): Option<Use> {
    if step.Redeem? && CodeOf(s, step.code).Some? then
      var c := CodeOf(s, step.code).value;
      Some(Use(true, step.inst, c.jti.Or(""), c.exp))
    else if step.Exchange? && AssertionStands(s, step) then
      Some(Use(false, step.inst, step.assertion.jti, step.assertion.exp))
    else None
  }

  /** The call a step makes to the guard of hand-off codes, or of assertions, of one process. */
  function CallTo(s: State, step: Step, handoff: bool, inst: int): seq<G.Call> {
    var u := Puts(s, step);
    if u.Some? && u.value.handoff == handoff && u.value.inst == inst then [G.Call(u.value.jti, u.value.exp, s.now)]
    else []
  }

  /** All calls a run makes to that guard, in order. */
  ghost function Calls(cfg: Config, s: State, steps: seq<Step>, handoff: bool, inst: int): seq<G.Call>
    decreases |steps|
  {
    if steps == [] then []
    else CallTo(s, steps[0], handoff, inst) + Calls(cfg, Next(cfg, s, steps[0]), steps[1..], handoff, inst)
  }

  function Guarded(s: State, handoff: bool, inst: int): G.Seen {
    GuardOf(if handoff then s.handoffSeen else s.assertionSeen, inst)
  }

  lemma GuardStep(cfg: Config, s: State, step: Step, handoff: bool, inst: int)
    ensures var call := CallTo(s, step, handoff, inst);
            Guarded(Next(cfg, s, step), handoff, inst) ==
            if call == [] then Guarded(s, handoff, inst)
            else G.AcceptSeen(Guarded(s, handoff, inst), call[0].jti, call[0].exp, s.now)
  {}

  /** The guard's records are those of these calls, none of them made later than now. */
  ghost predicate Served(s: State, handoff: bool, inst: int, calls: seq<G.Call>) {
    G.Left(calls, s.now, Guarded(s, handoff, inst))
  }

  lemma ServedStep(cfg: Config, s: State, step: Step, handoff: bool, inst: int, calls: seq<G.Call>)
    requires Served(s, handoff, inst, calls) && Enabled(s, step)
    ensures Served(Next(cfg, s, step), handoff, inst, calls + CallTo(s, step, handoff, inst))
  {
    GuardStep(cfg, s, step, handoff, inst);
    var call := CallTo(s, step, handoff, inst);
    if call == [] {
      assert calls + call == calls;
    } else {
      G.OneMoreCall(calls, call[0], Guarded(s, handoff, inst));
    }
  }

  lemma Regroup(a: seq<G.Call>, b: seq<G.Call>, c: seq<G.Call>)
    ensures a + (b + c) == (a + b) + c && a + [] == a && [] + a == a
  {}

  lemma {:induction false} ServedRun(
      cfg: Config, s: State, steps: seq<Step>, handoff: bool, inst: int, calls: seq<G.Call>)
    requires Served(s, handoff, inst, calls) && ValidRun(cfg, s, steps)
    ensures Served(Exec(cfg, s, steps), handoff, inst, calls + Calls(cfg, s, steps, handoff, inst))
    decreases |steps|
  {
    if steps == [] {
      Regroup(calls, [], []);
    } else {
      var call, t := CallTo(s, steps[0], handoff, inst), Next(cfg, s, steps[0]);
      ServedStep(cfg, s, steps[0], handoff, inst, calls);
      ServedRun(cfg, t, steps[1..], handoff, inst, calls + call);
      Regroup(calls, call, Calls(cfg, t, steps[1..], handoff, inst));
    }
  }

  /** In every run, a guard lets a credential pass exactly the first time and from its expiry on. */
  lemma GuardPassesIff(
      cfg: Config, s0: State, steps: seq<Step>, handoff: bool, inst: int, jti: string, exp: int)
    requires Initial(s0) && ValidRun(cfg, s0, steps)
    requires jti != "" && G.OneExpiry(Calls(cfg, s0, steps, handoff, inst), jti, exp)
    ensures var s := Exec(cfg, s0, steps);
            G.Accepts(Guarded(s, handoff, inst), jti, s.now) <==>
            !G.Presented(Calls(cfg, s0, steps, handoff, inst), jti) || exp <= s.now
  {
    var s, calls := Exec(cfg, s0, steps), Calls(cfg, s0, steps, handoff, inst);
    ServedRun(cfg, s0, steps, handoff, inst, []);
    Regroup(calls, [], []);
    G.NextAcceptedIff(calls, Guarded(s, handoff, inst), jti, exp, s.now);
  }

  // ---- hand-off codes -----------------------------------------------------------------------

  /** In any state: an unexpired code with a subject, and the audit accepted, mints iff the guard passes it. */
  lemma RedeemMintsIff(cfg: Config, s: State, step: Step)
    requires step.Redeem? && CodeOf(s, step.code).Some? && CodeOf(s, step.code).value.sub != "" && EmitOk(cfg, step.w)
    ensures Mints(RedeemCode(cfg, s, step)) <==>
            G.Accepts(Guarded(s, true, step.inst), CodeOf(s, step.code).value.jti.Or(""), s.now)
    ensures var out := RedeemCode(cfg, s, step);
            Mints(out) ==>
              out != [] && out[|out| - 1].Minted? && out[|out| - 1].origin == Redeemed(step.code, step.inst)
  {
    var out := RedeemCode(cfg, s, step);
    if out != [] { assert out[|out| - 1].Minted?; }
  }

  /** Random jtis do not repeat: no two hand-off codes share one. */
  ghost predicate DistinctCodes(log: seq<Event>) {
    forall p: nat, q: nat ::
      (IsMinted(log, p, Kind.Handoff) && IsMinted(log, q, Kind.Handoff) && log[p].claims.jti == log[q].claims.jti) ==>
      p == q
  }

  /** The code at log position `p` is what this call presents. */
  predicate Presents(log: seq<Event>, p: nat, call: G.Call) {
    IsMinted(log, p, Kind.Handoff) && log[p].claims.jti == Some(call.jti) && log[p].claims.exp == call.exp
  }

  lemma CallPresents(cfg: Config, s: State, step: Step, inst: int)
    requires LogOk(cfg, s.log) && CallTo(s, step, true, inst) != []
    ensures step.Redeem? && Presents(s.log, step.code, CallTo(s, step, true, inst)[0])
  {
    assert EntryOk(cfg, s.log, step.code);
  }

  /** Every call to a hand-off guard presents some code of the log. */
  lemma {:induction false} CallsPresent(cfg: Config, s: State, steps: seq<Step>, inst: int, k: nat) returns (p: nat)
    requires LogOk(cfg, s.log) && ValidRun(cfg, s, steps) && k < |Calls(cfg, s, steps, true, inst)|
    ensures Presents(Exec(cfg, s, steps).log, p, Calls(cfg, s, steps, true, inst)[k])
    decreases |steps|
  {
    var call := CallTo(s, steps[0], true, inst);
    if k < |call| {
      CallPresents(cfg, s, steps[0], inst);
      LogExtends(cfg, s, steps);
      p := steps[0].code;
      assert Exec(cfg, s, steps).log[p] == s.log[p];
    } else {
      NextKeepsLog(cfg, s, steps[0]);
      p := CallsPresent(cfg, Next(cfg, s, steps[0]), steps[1..], inst, k - |call|);
    }
  }

  lemma OneCodeOneExpiry(cfg: Config, s0: State, steps: seq<Step>, inst: int, code: nat)
    requires Initial(s0) && ValidRun(cfg, s0, steps) && DistinctCodes(Exec(cfg, s0, steps).log)
    requires CodeOf(Exec(cfg, s0, steps), code).Some?
    ensures var c := CodeOf(Exec(cfg, s0, steps), code).value;
            && c.jti.Some? && c.jti.value != ""
            && G.OneExpiry(Calls(cfg, s0, steps, true, inst), c.jti.value, c.exp)
  {
    ReachableLog(cfg, s0, steps);
    var log, calls := Exec(cfg, s0, steps).log, Calls(cfg, s0, steps, true, inst);
    assert EntryOk(cfg, log, code) && IsMinted(log, code, Kind.Handoff);
    forall k | 0 <= k < |calls| && calls[k].jti == log[code].claims.jti.Or("")
      ensures calls[k].exp == log[code].claims.exp
    {
      var p := CallsPresent(cfg, s0, steps, inst, k);
      assert p == code;
    }
  }

  /**
    In every run, a process turns an unexpired hand-off code into a session exactly when that code was
    never put to that process before. A redeem refused for want of an audit trail counts: it spends
    the code.
  */
  lemma RedeemsIffFirst(cfg: Config, s0: State, steps: seq<Step>, step: Step)
    requires Initial(s0) && ValidRun(cfg, s0, steps) && step.Redeem?
    requires var s := Exec(cfg, s0, steps);
             && CodeOf(s, step.code).Some? && CodeOf(s, step.code).value.sub != ""
             && EmitOk(cfg, step.w) && DistinctCodes(s.log)
    ensures var s := Exec(cfg, s0, steps);
            Mints(RedeemCode(cfg, s, step)) <==>
            !G.Presented(Calls(cfg, s0, steps, true, step.inst), CodeOf(s, step.code).value.jti.Or(""))
  {
    var s := Exec(cfg, s0, steps);
    var c := CodeOf(s, step.code).value;
    OneCodeOneExpiry(cfg, s0, steps, step.inst, step.code);
    GuardPassesIff(cfg, s0, steps, true, step.inst, c.jti.Or(""), c.exp);
    RedeemMintsIff(cfg, s, step);
  }

  // ---- assertions ------------------------------------------------------------------------------

  /** Everything an exchange needs besides a standing, unused assertion. */
  predicate Exchangeable(cfg: Config, a: Assertion, w: World) {
    && EmitOk(cfg, w)
    && if a.tokenType == "service" then cfg.allowService && a.tenant != ""
       else (a.tokenType == "" || a.tokenType == "delegated") && w.tenants != []
  }

  lemma ExchangeMintsIff(cfg: Config, s: State, step: Step)
    requires step.Exchange?
    ensures Mints(AuthExchange(cfg, s, step)) <==>
            && AssertionStands(s, step) && Exchangeable(cfg, step.assertion, step.w)
            && G.Accepts(Guarded(s, false, step.inst), step.assertion.jti, s.now)
    ensures var out := AuthExchange(cfg, s, step);
            Mints(out) ==>
              out != [] && out[|out| - 1].Minted? && out[|out| - 1].origin == Asserted(step.assertion, step.inst)
  {
    var out := AuthExchange(cfg, s, step);
    if out != [] && out[|out| - 1].Minted? { assert Mints(out); }
  }

  /**
    In every run, for a jti that belongs to one assertion: an exchange mints exactly when the
    assertion stands, nothing else is missing, and it is the first time that process sees the jti,
    or the assertion has expired. Past the expiry nothing blocks it until its leeway is over.
  */
  lemma ExchangesIff(cfg: Config, s0: State, steps: seq<Step>, step: Step)
    requires Initial(s0) && ValidRun(cfg, s0, steps) && step.Exchange? && step.assertion.jti != ""
    requires G.OneExpiry(Calls(cfg, s0, steps, false, step.inst), step.assertion.jti, step.assertion.exp)
    ensures var s, a := Exec(cfg, s0, steps), step.assertion;
            Mints(AuthExchange(cfg, s, step)) <==>
            && AssertionStands(s, step) && Exchangeable(cfg, a, step.w)
            && (!G.Presented(Calls(cfg, s0, steps, false, step.inst), a.jti) || a.exp <= s.now)
  {
    var s, a := Exec(cfg, s0, steps), step.assertion;
    GuardPassesIff(cfg, s0, steps, false, step.inst, a.jti, a.exp);
    ExchangeMintsIff(cfg, s, step);
  }

  /** So an assertion already put to a process mints there again exactly inside its leeway. */
  lemma ReplayedIffInLeeway(cfg: Config, s0: State, steps: seq<Step>, step: Step)
    requires Initial(s0) && ValidRun(cfg, s0, steps) && step.Exchange? && step.assertion.jti != ""
    requires G.OneExpiry(Calls(cfg, s0, steps, false, step.inst), step.assertion.jti, step.assertion.exp)
    requires G.Presented(Calls(cfg, s0, steps, false, step.inst), step.assertion.jti)
    requires step.verified && step.assertion.exp != 0 && step.assertion.sub != ""
    requires Exchangeable(cfg, step.assertion, step.w)
    ensures var s, a := Exec(cfg, s0, steps), step.assertion;
            Mints(AuthExchange(cfg, s, step)) <==> a.exp <= s.now <= a.exp + 60
  {
    ExchangesIff(cfg, s0, steps, step);
  }

  // ---- runs that use a credential twice ------------------------------------------------------------

  lemma OneMoreStep(cfg: Config, s: State, a: Step, rest: seq<Step>)
    requires Enabled(s, a) && ValidRun(cfg, Next(cfg, s, a), rest)
    ensures ValidRun(cfg, s, [a] + rest) && Exec(cfg, s, [a] + rest) == Exec(cfg, Next(cfg, s, a), rest)
  {
    assert ([a] + rest)[1..] == rest;
  }

  lemma TwoSteps(cfg: Config, s: State, a: Step, b: Step)
    requires Enabled(s, a) && Enabled(Next(cfg, s, a), b)
    ensures ValidRun(cfg, s, [a, b]) && Exec(cfg, s, [a, b]) == Next(cfg, Next(cfg, s, a), b)
  {
    var t, none := Next(cfg, s, a), [];
    OneMoreStep(cfg, t, b, none);
    OneMoreStep(cfg, s, a, [b] + none);
    assert [a] + ([b] + none) == [a, b];
  }

  lemma ThreeSteps(cfg: Config, s: State, a: Step, b: Step, c: Step)
    requires Enabled(s, a) && Enabled(Next(cfg, s, a), b) && Enabled(Next(cfg, Next(cfg, s, a), b), c)
    ensures ValidRun(cfg, s, [a, b, c])
    ensures Exec(cfg, s, [a, b, c]) == Next(cfg, Next(cfg, Next(cfg, s, a), b), c)
  {
    TwoSteps(cfg, Next(cfg, s, a), b, c);
    OneMoreStep(cfg, s, a, [b, c]);
    assert [a] + [b, c] == [a, b, c];
  }

  /** The log grew from `a` to `b`, last of all by a credential of this origin. */
  predicate EndsIn(a: seq<Event>, b: seq<Event>, origin: Origin) {
    |a| < |b| && a <= b && b[|b| - 1].Minted? && b[|b| - 1].origin == origin
  }

  lemma BothEnd(a: seq<Event>, b: seq<Event>, c: seq<Event>, o: Origin, o': Origin)
    requires EndsIn(a, b, o) && EndsIn(b, c, o')
    ensures |a| - 1 < |b| - 1 < |c| - 1 && c[|b| - 1].Minted? && c[|b| - 1].origin == o
  {}

  lemma RedeemLogged(cfg: Config, s: State, step: Step)
    requires step.Redeem? && Mints(RedeemCode(cfg, s, step))
    requires CodeOf(s, step.code).Some? && CodeOf(s, step.code).value.sub != "" && EmitOk(cfg, step.w)
    ensures EndsIn(s.log, Next(cfg, s, step).log, Redeemed(step.code, step.inst))
  {
    RedeemMintsIff(cfg, s, step);
  }

  lemma ExchangeLogged(cfg: Config, s: State, step: Step)
    requires step.Exchange? && Mints(AuthExchange(cfg, s, step))
    ensures EndsIn(s.log, Next(cfg, s, step).log, Asserted(step.assertion, step.inst))
  {
    ExchangeMintsIff(cfg, s, step);
  }

  /** From any state, two processes whose guards do not know a code each redeem it, one after the other. */
  lemma TwoProcessesRedeemTwice(cfg: Config, s: State, first: Step, second: Step)
    requires first.Redeem? && second.Redeem? && first.code == second.code && first.inst != second.inst
    requires CodeOf(s, first.code).Some? && CodeOf(s, first.code).value.sub != ""
    requires EmitOk(cfg, first.w) && EmitOk(cfg, second.w)
    requires var jti := CodeOf(s, first.code).value.jti.Or("");
             jti !in Guarded(s, true, first.inst) && jti !in Guarded(s, true, second.inst)
    ensures Mints(RedeemCode(cfg, s, first)) && Mints(RedeemCode(cfg, Next(cfg, s, first), second))
    ensures CodeOf(Next(cfg, s, first), second.code) == CodeOf(s, first.code)
  {
    RedeemMintsIff(cfg, s, first);
    GuardStep(cfg, s, first, true, second.inst);
    var t := Next(cfg, s, first);
    assert t.log[first.code] == s.log[first.code];
    RedeemMintsIff(cfg, t, second);
  }

  lemma BothLogged(cfg: Config, s: State, first: Step, second: Step)
    requires first.Redeem? && second.Redeem? && first.code == second.code && first.inst != second.inst
    requires CodeOf(s, first.code).Some? && CodeOf(s, first.code).value.sub != "" && s.handoffSeen == map[]
    requires EmitOk(cfg, first.w) && EmitOk(cfg, second.w)
    ensures var t := Next(cfg, s, first);
            && EndsIn(s.log, t.log, Redeemed(first.code, first.inst))
            && EndsIn(t.log, Next(cfg, t, second).log, Redeemed(second.code, second.inst))
  {
    TwoProcessesRedeemTwice(cfg, s, first, second);
    RedeemLogged(cfg, s, first);
    RedeemLogged(cfg, Next(cfg, s, first), second);
  }

  /** Such a state is reached: hand off, redeem on one process, redeem on another. */
  lemma CodeRedeemedTwice(cfg: Config, s0: State) returns (steps: seq<Step>, code: nat, i: nat, k: nat)
    requires Initial(s0) && cfg.handoffTtl > 0
    ensures ValidRun(cfg, s0, steps)
    ensures var log := Exec(cfg, s0, steps).log;
            && code < i < k < |log| && log[i].Minted? && log[k].Minted?
            && log[i].origin == Redeemed(code, 0) && log[k].origin == Redeemed(code, 1)
  {
    var w := World(true, true, true, true, false, ["acme"], map["acme" := []], "j");
    var a0 := HandOffAs(cfg, s0, w);
    var s1 := Next(cfg, s0, a0);
    var a1, a2 := Step.Redeem(0, 0, "", w), Step.Redeem(0, 1, "", w);
    TwiceFrom(cfg, s1, a1, a2);
    ThreeSteps(cfg, s0, a0, a1, a2);
    var s2 := Next(cfg, s1, a1);
    steps, code, i, k := [a0, a1, a2], 0, |s2.log| - 1, |Next(cfg, s2, a2).log| - 1;
  }

  lemma TwiceFrom(cfg: Config, s: State, first: Step, second: Step)
    requires first.Redeem? && second.Redeem? && first.code == second.code == 0 && first.inst != second.inst
    requires CodeOf(s, 0).Some? && CodeOf(s, 0).value.sub != "" && s.handoffSeen == map[]
    requires EmitOk(cfg, first.w) && EmitOk(cfg, second.w)
    ensures var t := Next(cfg, s, first);
            var log := Next(cfg, t, second).log;
            && 0 < |t.log| - 1 < |log| - 1 && log[|t.log| - 1].Minted? && log[|log| - 1].Minted?
            && log[|t.log| - 1].origin == Redeemed(0, first.inst) && log[|log| - 1].origin == Redeemed(0, second.inst)
  {
    BothLogged(cfg, s, first, second);
    var t := Next(cfg, s, first);
    BothEnd(s.log, t.log, Next(cfg, t, second).log, Redeemed(0, first.inst), Redeemed(0, second.inst));
  }

  /** A hand-off over HTTP Basic, from the start: the code is the first thing logged. */
  lemma HandOffAs(cfg: Config, s0: State, w: World) returns (step: Step)
    requires Initial(s0) && cfg.handoffTtl > 0 && w.gate && w.jti != "" && w.tenants == ["acme"]
    ensures Enabled(s0, step)
    ensures var t := Next(cfg, s0, step);
            && t.log != [] && t.handoffSeen == map[] && t.now == s0.now
            && CodeOf(t, 0) == Some(HandoffClaims("ann", "acme", w.jti, s0.now, cfg.handoffTtl, []))
  {
    step := Step.Handoff(Basic(Some(Bound("ann", [])), "acme"), w);
    var code := HandoffClaims("ann", "acme", w.jti, s0.now, cfg.handoffTtl, []);
    assert "acme" in w.tenants by { assert w.tenants[0] == "acme"; }
    var out := [Minted(code, Kind.Handoff, HandedOff(None), s0.now)] + Emit(cfg, w, SsoHandoff, true, "ann", "acme");
    assert Outcome(cfg, s0, step) == HandoffCode(cfg, s0, step) == out;
    assert Next(cfg, s0, step).log == out;
  }

  lemma RedeemedTenant(cfg: Config, s: State, step: Step)
    requires step.Redeem? && Mints(RedeemCode(cfg, s, step))
    requires CodeOf(s, step.code).Some? && CodeOf(s, step.code).value.sub != "" && EmitOk(cfg, step.w)
    ensures var log := Next(cfg, s, step).log;
            && |log| > 0 && log[|log| - 1].Minted?
            && log[|log| - 1].claims.tenant == StampedTenant(step.w.byTenant, CodeOf(s, step.code).value.tenant)
  {
    RedeemMintsIff(cfg, s, step);
    var out := RedeemCode(cfg, s, step);
    assert Next(cfg, s, step).log == s.log + out;
  }

  /** A redeemed session need not be for its code's tenant: the roles moved on in between. */
  lemma RedeemChangesTenant(cfg: Config, s0: State) returns (steps: seq<Step>, i: nat)
    requires Initial(s0) && cfg.handoffTtl > 0
    ensures ValidRun(cfg, s0, steps)
    ensures var log := Exec(cfg, s0, steps).log;
            && 0 < i < |log| && log[0].Minted? && log[0].claims.tenant == "acme"
            && log[i].Minted? && log[i].origin == Redeemed(0, 0) && log[i].claims.tenant == "beta"
  {
    var w := World(true, true, true, true, false, ["acme"], map["beta" := []], "j");
    var a0 := HandOffAs(cfg, s0, w);
    var s1 := Next(cfg, s0, a0);
    var a1 := Step.Redeem(0, 0, "", w);
    RedeemMintsIff(cfg, s1, a1);
    RedeemLogged(cfg, s1, a1);
    RedeemedTenant(cfg, s1, a1);
    assert "beta" in w.byTenant && w.byTenant.Keys == {"beta"} && "acme" != "beta";
    StampIff(w.byTenant, "acme");
    TwoSteps(cfg, s0, a0, a1);
    steps, i := [a0, a1], |Next(cfg, s1, a1).log| - 1;
  }

  /** From any state: an assertion that mints now mints again in its leeway. */
  lemma MintsAgainInLeeway(cfg: Config, s: State, step: Step, wait: nat)
    requires step.Exchange? && Mints(AuthExchange(cfg, s, step)) && step.assertion.jti != ""
    requires step.assertion.exp <= s.now + wait <= step.assertion.exp + 60
    ensures var t := Next(cfg, Next(cfg, s, step), Tick(wait));
            && t.log == Next(cfg, s, step).log && Mints(AuthExchange(cfg, t, step))
            && EndsIn(s.log, t.log, Asserted(step.assertion, step.inst))
  {
    ExchangeLogged(cfg, s, step);
    ExchangeMintsIff(cfg, s, step);
    GuardStep(cfg, s, step, false, step.inst);
    var t := Next(cfg, Next(cfg, s, step), Tick(wait));
    GuardStep(cfg, Next(cfg, s, step), Tick(wait), false, step.inst);
    ExchangeMintsIff(cfg, t, step);
  }

  /** Two credentials of the log have this origin. */
  ghost predicate Twice(log: seq<Event>, o: Origin) {
    exists i, k :: 0 <= i < k < |log| && log[i].Minted? && log[k].Minted? && log[i].origin == log[k].origin == o
  }

  lemma EndsTwice(a: seq<Event>, b: seq<Event>, c: seq<Event>, o: Origin)
    requires EndsIn(a, b, o) && EndsIn(b, c, o)
    ensures Twice(c, o)
  {
    BothEnd(a, b, c, o, o);
    assert c[|b| - 1].Minted? && c[|c| - 1].Minted?;
  }

  /** The log after an exchange, a wait and the same exchange: two credentials of one origin. */
  lemma LoggedAgain(cfg: Config, s: State, step: Step, wait: nat)
    requires step.Exchange? && Mints(AuthExchange(cfg, s, step)) && step.assertion.jti != ""
    requires step.assertion.exp <= s.now + wait <= step.assertion.exp + 60
    ensures Twice(Next(cfg, Next(cfg, Next(cfg, s, step), Tick(wait)), step).log, Asserted(step.assertion, step.inst))
  {
    var s2 := Next(cfg, Next(cfg, s, step), Tick(wait));
    MintsAgainInLeeway(cfg, s, step, wait);
    ExchangeLogged(cfg, s2, step);
    EndsTwice(s.log, s2.log, Next(cfg, s2, step).log, Asserted(step.assertion, step.inst));
  }

  lemma MintsAtFirst(cfg: Config, s0: State, step: Step)
    requires Initial(s0) && step.Exchange? && AssertionStands(s0, step) && Exchangeable(cfg, step.assertion, step.w)
    ensures Mints(AuthExchange(cfg, s0, step))
  {
    ExchangeMintsIff(cfg, s0, step);
  }

  /** So every assertion that stands now yields a run with two sessions of it on one process. */
  lemma AssertionExchangedTwice(cfg: Config, s0: State, step: Step, wait: nat)
    requires Initial(s0) && Enabled(s0, step) && step.Exchange? && AssertionStands(s0, step)
    requires step.assertion.jti != "" && Exchangeable(cfg, step.assertion, step.w)
    requires step.assertion.exp <= s0.now + wait <= step.assertion.exp + 60
    ensures ValidRun(cfg, s0, [step, Tick(wait), step])
    ensures Twice(Exec(cfg, s0, [step, Tick(wait), step]).log, Asserted(step.assertion, step.inst))
  {
    MintsAtFirst(cfg, s0, step);
    LoggedAgain(cfg, s0, step, wait);
    ThreeSteps(cfg, s0, step, Tick(wait), step);
  }

  /** There is such an assertion, and such a request, under every configuration. */
  lemma SomeAssertionStands(cfg: Config, s0: State) returns (step: Step)
    requires Initial(s0)
    ensures Enabled(s0, step) && step.Exchange? && AssertionStands(s0, step)
    ensures step.assertion.jti != "" && Exchangeable(cfg, step.assertion, step.w)
    ensures s0.now < step.assertion.exp
  {
    var exp := if s0.now == -1 then 1 else s0.now + 1;
    var w := World(true, true, true, true, false, ["acme"], map["acme" := []], "j");
    step := Exchange(Assertion("ann", "acme", exp, "one", "", [], ""), true, 0, "", w);
  }
}
