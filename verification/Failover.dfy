/**
  Failover from the directory master to its read-only replica. A failed master attempt opens a
  cooldown during which calls go straight to the replica; the first call after it probes the
  master again. Time is a real number of seconds and calls are serialised by the authenticator's
  lock.
*/
module Failover {

  datatype Connection = Master | Replica | Unreachable

  /**
    One call and what the world answers it: the clock when the breaker is consulted, the clock when
    a master attempt has come back, and whether each server would accept a connection.
  */
  datatype Call = Call(start: real, end: real, masterUp: bool, replicaUp: bool)

  /** A master attempt: when it began, when it came back, and whether it succeeded. */
  datatype Attempt = Attempt(start: real, end: real, ok: bool)

  datatype State = State(downUntil: real, attempts: seq<Attempt>)

  function Step(s: State, cooldown: real, call: Call): State {
    if call.start < s.downUntil then s
    else State(if call.masterUp then 0.0 else call.end + cooldown,
               s.attempts + [Attempt(call.start, call.end, call.masterUp)])
  }

  function Reached(s: State, call: Call): Connection {
    if s.downUntil <= call.start && call.masterUp then Master
    else if call.replicaUp then Replica
    else Unreachable
  }

  function Run(cooldown: real, calls: seq<Call>): State {
    if calls == [] then State(0.0, [])
    else Step(Run(cooldown, calls[..|calls| - 1]), cooldown, calls[|calls| - 1])
  }

  /** A monotone non-negative clock, read under the lock. */
  predicate Clocked(calls: seq<Call>) {
    && (forall i :: 0 <= i < |calls| ==> 0.0 <= calls[i].start <= calls[i].end)
    && (forall i, j :: 0 <= i < j < |calls| ==> calls[i].end <= calls[j].start)
  }

  // ---- the code ----------------------------------------------------------------------------

  class CircuitBreaker {
    const cooldown: real
    var downUntil: real

    constructor (cooldown: real)
      ensures this.cooldown == cooldown && downUntil == 0.0
    {
      this.cooldown := cooldown;
      downUntil := 0.0;
    }

    predicate ShouldTryPrimary(now: real)
      reads this
    {
      now >= downUntil
    }

    predicate IsDegraded(now: real)
      reads this
      ensures IsDegraded(now) <==> !ShouldTryPrimary(now)
    {
      now < downUntil
    }

    method Trip(now: real)
      modifies this
      ensures downUntil == now + cooldown
    {
      downUntil := now + cooldown;
    }

    method Reset()
      modifies this
      ensures downUntil == 0.0
    {
      downUntil := 0.0;
    }
  }

  class Authenticator {
    const hasReplica: bool
    const breaker: CircuitBreaker
    /** Every master attempt so far. */
    var attempts: seq<Attempt>

    constructor (hasReplica: bool, cooldown: real)
      ensures this.hasReplica == hasReplica && fresh(breaker) && breaker.cooldown == cooldown
      ensures Abstract() == State(0.0, [])
    {
      this.hasReplica := hasReplica;
      breaker := new CircuitBreaker(cooldown);
      attempts := [];
    }

    function Abstract(): State
      reads this, breaker
    {
      State(breaker.downUntil, attempts)
    }

    method ConnectToLdap(call: Call) returns (conn: Connection)
      modifies this, breaker
      ensures hasReplica ==> Abstract() == Step(old(Abstract()), breaker.cooldown, call)
      ensures hasReplica ==> conn == Reached(old(Abstract()), call)
      ensures !hasReplica ==> breaker.downUntil == old(breaker.downUntil)
                              && attempts == old(attempts) + [Attempt(call.start, call.end, call.masterUp)]
                              && conn == if call.masterUp then Master else Unreachable
    {
      if !hasReplica {
        attempts := attempts + [Attempt(call.start, call.end, call.masterUp)];
        return if call.masterUp then Master else Unreachable;
      }
      if breaker.ShouldTryPrimary(call.start) {
        attempts := attempts + [Attempt(call.start, call.end, call.masterUp)];
        if call.masterUp {
          breaker.Reset();
          return Master;
        }
        breaker.Trip(call.end);
      }
      return if call.replicaUp then Replica else Unreachable;
    }
  }

  // ---- every run -----------------------------------------------------------------------------

  /** Every failure among `attempts` has had its full cooldown by `t`. */
  predicate Cooled(attempts: seq<Attempt>, cooldown: real, t: real) {
    forall i :: 0 <= i < |attempts| && !attempts[i].ok ==> attempts[i].end + cooldown <= t
  }

  /** No attempt begins inside the cooldown of an earlier failure. */
  predicate CoolBetween(attempts: seq<Attempt>, cooldown: real) {
    forall i, j :: 0 <= i < j < |attempts| && !attempts[i].ok ==> attempts[i].end + cooldown <= attempts[j].start
  }

  ghost predicate Inv(s: State, cooldown: real, now: real) {
    && (forall i :: 0 <= i < |s.attempts| ==> s.attempts[i].start <= s.attempts[i].end <= now)
    && CoolBetween(s.attempts, cooldown)
    && (forall t: real :: now <= t ==> (s.downUntil <= t <==> Cooled(s.attempts, cooldown, t)))
  }

  lemma StepKeepsInv(s: State, cooldown: real, now: real, call: Call)
    requires Inv(s, cooldown, now) && 0.0 <= now <= call.start <= call.end
    ensures Inv(Step(s, cooldown, call), cooldown, call.end)
  {
    var s' := Step(s, cooldown, call);
    var n := |s.attempts|;
    assert s.downUntil <= call.start <==> Cooled(s.attempts, cooldown, call.start);
    if s.downUntil <= call.start {
      forall t: real | call.end <= t ensures s'.downUntil <= t <==> Cooled(s'.attempts, cooldown, t) {
        assert forall i :: 0 <= i < n ==> s'.attempts[i] == s.attempts[i];
        assert s'.attempts[n] == Attempt(call.start, call.end, call.masterUp);
      }
    }
  }

  /** The clock reading a run of calls ends at. */
  function Latest(calls: seq<Call>): real {
    if calls == [] then 0.0 else calls[|calls| - 1].end
  }

  lemma {:induction false} RunKeepsInv(cooldown: real, calls: seq<Call>)
    requires Clocked(calls)
    ensures Latest(calls) >= 0.0 && Inv(Run(cooldown, calls), cooldown, Latest(calls))
    decreases |calls|
  {
    if calls == [] {
      assert forall t: real :: Cooled([], cooldown, t);
    } else {
      var last := |calls| - 1;
      RunKeepsInv(cooldown, calls[..last]);
      StepKeepsInv(Run(cooldown, calls[..last]), cooldown, Latest(calls[..last]), calls[last]);
    }
  }

  /** No master attempt of any run, successful or not, begins inside the cooldown of an earlier failure. */
  lemma NoAttemptInsideCooldown(cooldown: real, calls: seq<Call>, i: nat, j: nat)
    requires Clocked(calls)
    requires i < j < |Run(cooldown, calls).attempts| && !Run(cooldown, calls).attempts[i].ok
    ensures Run(cooldown, calls).attempts[j].start >= Run(cooldown, calls).attempts[i].end + cooldown
  {
    RunKeepsInv(cooldown, calls);
  }

  /** A call tries the master exactly when every failure so far has cooled: so the first one after the window does. */
  lemma ProbesIffCooled(cooldown: real, calls: seq<Call>, call: Call)
    requires Clocked(calls + [call])
    ensures var s := Run(cooldown, calls);
            if Cooled(s.attempts, cooldown, call.start)
            then Run(cooldown, calls + [call]).attempts == s.attempts + [Attempt(call.start, call.end, call.masterUp)]
            else Run(cooldown, calls + [call]).attempts == s.attempts
  {
    var all := calls + [call];
    assert all[|calls|] == call && all[..|calls|] == calls;
    assert Clocked(calls) by { assert forall i :: 0 <= i < |calls| ==> calls[i] == all[i]; }
    assert Latest(calls) <= call.start by { if calls != [] { assert all[|calls| - 1] == calls[|calls| - 1]; } }
    RunKeepsInv(cooldown, calls);
  }

  /** With a replica: the master is used exactly when it is up and every failure has cooled, else the replica if up. */
  lemma ReachedIff(cooldown: real, calls: seq<Call>, call: Call)
    requires Clocked(calls + [call])
    ensures var s := Run(cooldown, calls);
            && (Reached(s, call).Master? <==> call.masterUp && Cooled(s.attempts, cooldown, call.start))
            && (Reached(s, call).Replica? <==>
                  call.replicaUp && !(call.masterUp && Cooled(s.attempts, cooldown, call.start)))
  {
    var all := calls + [call];
    assert all[|calls|] == call;
    assert Clocked(calls) by { assert forall i :: 0 <= i < |calls| ==> calls[i] == all[i]; }
    assert Latest(calls) <= call.start by { if calls != [] { assert all[|calls| - 1] == calls[|calls| - 1]; } }
    RunKeepsInv(cooldown, calls);
  }

  /** With a replica: no connection iff the call's replica attempt failed and the master was down or skipped. */
  lemma UnreachableIff(cooldown: real, calls: seq<Call>, call: Call)
    requires Clocked(calls + [call])
    ensures var s := Run(cooldown, calls);
            Reached(s, call).Unreachable? <==>
              !call.replicaUp && (!call.masterUp || !Cooled(s.attempts, cooldown, call.start))
  {
    ReachedIff(cooldown, calls, call);
  }

  // ---- the probe rate ---------------------------------------------------------------------------

  /** The failed attempts that were under way at some instant of the interval from `a` to `b`. */
  function Failures(attempts: seq<Attempt>, a: real, b: real): (fs: seq<Attempt>)
    ensures forall f :: f in fs ==> f in attempts && a <= f.end && f.start <= b
  {
    if attempts == [] then []
    else
      var last := attempts[|attempts| - 1];
      var fs := Failures(attempts[..|attempts| - 1], a, b);
      if !last.ok && a <= last.end && last.start <= b then fs + [last] else fs
  }

  /** Consecutive members lie a cooldown apart. */
  predicate Spaced(fs: seq<Attempt>, cooldown: real) {
    && (forall i :: 0 <= i < |fs| ==> fs[i].start <= fs[i].end)
    && (forall i, j :: 0 <= i < j < |fs| ==> fs[i].end + cooldown <= fs[j].start)
  }

  lemma {:induction false} FailuresSpaced(attempts: seq<Attempt>, cooldown: real, a: real, b: real)
    requires forall i :: 0 <= i < |attempts| ==> attempts[i].start <= attempts[i].end
    requires CoolBetween(attempts, cooldown)
    ensures Spaced(Failures(attempts, a, b), cooldown)
    ensures forall f :: f in Failures(attempts, a, b) ==> !f.ok
    decreases |attempts|
  {
    if attempts == [] {
    } else {
      FailuresSpaced(attempts[..|attempts| - 1], cooldown, a, b);
    }
  }

  /** n cooldowns, one after the other. */
  function Span(cooldown: real, n: nat): real {
    if n == 0 then 0.0 else Span(cooldown, n - 1) + cooldown
  }

  lemma {:induction false} SpanIsProduct(cooldown: real, n: nat)
    ensures Span(cooldown, n) == cooldown * (n as real)
  {
    if n == 0 {
    } else {
      SpanIsProduct(cooldown, n - 1);
      var m := (n - 1) as real;
      assert cooldown * (m + 1.0) == cooldown * m + cooldown;
      assert n as real == m + 1.0;
    }
  }

  lemma {:induction false} SpanGrows(cooldown: real, m: nat, n: nat)
    requires cooldown >= 0.0 && m <= n
    ensures 0.0 <= Span(cooldown, m) <= Span(cooldown, n)
    decreases n
  {
    if m < n {
      SpanGrows(cooldown, m, n - 1);
    } else if m > 0 {
      SpanGrows(cooldown, m - 1, n - 1);
    }
  }

  lemma DivideProduct(x: real, y: real, z: real)
    requires y > 0.0 && y * x <= z
    ensures x <= z / y && (y * x == z ==> x == z / y)
  {
  }

  /** How many failures an interval has room for. */
  lemma SpanFits(cooldown: real, n: nat, length: real)
    requires cooldown > 0.0 && Span(cooldown, n) <= length
    ensures n <= (length / cooldown).Floor
    ensures Span(cooldown, n) == length ==> (length / cooldown).Floor == n
  {
    SpanIsProduct(cooldown, n);
    DivideProduct(n as real, cooldown, length);
  }

  lemma {:induction false} SpacedSpan(fs: seq<Attempt>, cooldown: real, n: nat)
    requires Spaced(fs, cooldown) && 1 <= n < |fs|
    ensures fs[n].start >= fs[0].end + Span(cooldown, n)
  {
    if n == 1 {
    } else {
      SpacedSpan(fs, cooldown, n - 1);
      assert fs[n - 1].end + cooldown <= fs[n].start;
    }
  }

  /**
    In every run and every interval of length `length`, at most floor(length / cooldown) + 1 failed
    master attempts are under way at any time of the interval.
  */
  lemma ProbeRate(cooldown: real, calls: seq<Call>, a: real, length: real)
    requires Clocked(calls) && cooldown > 0.0 && length >= 0.0
    ensures |Failures(Run(cooldown, calls).attempts, a, a + length)| <= (length / cooldown).Floor + 1
  {
    var n := SpanOfFailures(cooldown, calls, a, a + length);
    SpanGrows(cooldown, 0, n);
    SpanFits(cooldown, n, length);
  }

  lemma SpanOfFailures(cooldown: real, calls: seq<Call>, a: real, b: real) returns (n: nat)
    requires Clocked(calls) && a <= b
    ensures |Failures(Run(cooldown, calls).attempts, a, b)| <= n + 1 && Span(cooldown, n) <= b - a
  {
    var attempts := Run(cooldown, calls).attempts;
    var fs := Failures(attempts, a, b);
    RunKeepsInv(cooldown, calls);
    FailuresSpaced(attempts, cooldown, a, b);
    if |fs| <= 1 { return 0; }
    n := |fs| - 1;
    SpacedSpan(fs, cooldown, n);
    assert a <= fs[0].end && fs[n].start <= b;
  }

  /** A master that is down, asked again whenever a cooldown ends. */
  function Busy(cooldown: real, n: nat): (calls: seq<Call>)
    ensures |calls| == n
    ensures forall i :: 0 <= i < n ==> calls[i] == Call(Span(cooldown, i), Span(cooldown, i), false, true)
  {
    if n == 0 then []
    else Busy(cooldown, n - 1) + [Call(Span(cooldown, n - 1), Span(cooldown, n - 1), false, true)]
  }

  lemma BusyClocked(cooldown: real, n: nat)
    requires cooldown > 0.0
    ensures Clocked(Busy(cooldown, n))
  {
    forall i, j | 0 <= i <= j < n ensures 0.0 <= Span(cooldown, i) <= Span(cooldown, j) {
      SpanGrows(cooldown, i, j);
    }
  }

  /** One more request to a master that is down, just as its cooldown ends. */
  lemma BusyStep(cooldown: real, n: nat)
    ensures var call := Call(Span(cooldown, n), Span(cooldown, n), false, true);
            Run(cooldown, Busy(cooldown, n + 1)) == Step(Run(cooldown, Busy(cooldown, n)), cooldown, call)
  {
    var call := Call(Span(cooldown, n), Span(cooldown, n), false, true);
    var calls := Busy(cooldown, n) + [call];
    assert Busy(cooldown, n + 1) == calls && calls[..n] == Busy(cooldown, n) && calls[n] == call;
  }

  lemma {:induction false} BusyRun(cooldown: real, n: nat)
    ensures Run(cooldown, Busy(cooldown, n)).downUntil == Span(cooldown, n)
  {
    if n == 0 {
    } else {
      BusyRun(cooldown, n - 1);
      BusyStep(cooldown, n - 1);
    }
  }

  lemma OneMoreFailure(attempts: seq<Attempt>, last: Attempt, b: real)
    requires !last.ok && 0.0 <= last.end && last.start <= b
    ensures |Failures(attempts + [last], 0.0, b)| == |Failures(attempts, 0.0, b)| + 1
  {
    assert (attempts + [last])[..|attempts|] == attempts;
  }

  lemma {:induction false} BusyFails(cooldown: real, n: nat, b: real)
    requires cooldown > 0.0 && Span(cooldown, n) <= b + cooldown
    ensures |Failures(Run(cooldown, Busy(cooldown, n)).attempts, 0.0, b)| == n
  {
    if n == 0 {
    } else {
      BusyFails(cooldown, n - 1, b);
      BusyRun(cooldown, n - 1);
      BusyStep(cooldown, n - 1);
      SpanGrows(cooldown, 0, n - 1);
      var at := Span(cooldown, n - 1);
      OneMoreFailure(Run(cooldown, Busy(cooldown, n - 1)).attempts, Attempt(at, at, false), b);
    }
  }

  /** The bound cannot be improved: for every n some run has n + 1 failures within n cooldowns. */
  lemma ProbeRateIsTight(cooldown: real, n: nat)
    requires cooldown > 0.0
    ensures Clocked(Busy(cooldown, n + 1))
    ensures |Failures(Run(cooldown, Busy(cooldown, n + 1)).attempts, 0.0, Span(cooldown, n))|
            == (Span(cooldown, n) / cooldown).Floor + 1
  {
    BusyClocked(cooldown, n + 1);
    BusyFails(cooldown, n + 1, Span(cooldown, n));
    SpanFits(cooldown, n, Span(cooldown, n));
  }
}
