/**
  A value per tenant that someone else owns, read through the look-aside cache of `TtlCache`: the
  registry's state of a tenant, or the identity service's second-factor mandate. The owner changes
  values at any time, a lookup returns the value of its instant or fails, and requests interleave
  freely. `life` says how long a reply may be reused and `initial` is the value before any change.
*/
module Authority {
  import T = TtlCache

  datatype Reply<+R> = Failed | Found(value: R)

  datatype Note<+R> = Became(tenant: string, value: R)

  type Log<+R> = seq<T.Event<string, Reply<R>, Note<R>>>

  datatype State<R> = State(core: T.State<string, Reply<R>, Note<R>>, held: map<string, R>)

  datatype Step<+R> =
    | Tick(elapsed: nat)
    | Begin(call: int, inst: int, tenant: string)
    | Probe(call: int)
    | Lookup(call: int, reachable: bool)
    | Put(call: int)
    | Change(tenant: string, value: R)

  datatype Policy<!R> = Policy(life: Reply<R> -> int, initial: R)

  function Held<R>(p: Policy<R>, s: State<R>, tenant: string): R {
    if tenant in s.held then s.held[tenant] else p.initial
  }

  /** What a lookup finds when the owner is, or is not, reachable. */
  function Answer<R>(p: Policy<R>, s: State<R>, tenant: string, reachable: bool): Reply<R> {
    if reachable then Found(Held(p, s, tenant)) else Failed
  }

  predicate Enabled<R>(s: State<R>, step: Step<R>) {
    match step
    case Tick(_) => true
    case Begin(c, _, t) => c !in s.core.calls && t != ""
    case Probe(c) => c in s.core.calls && s.core.calls[c].Begun?
    case Lookup(c, _) => c in s.core.calls && s.core.calls[c].Missed?
    case Put(c) => c in s.core.calls && s.core.calls[c].Answered?
    case Change(_, _) => true
  }

  function CoreStep<R>(p: Policy<R>, s: State<R>, step: Step<R>): T.Step<string, Reply<R>, Note<R>>
    requires Enabled(s, step)
  {
    match step
    case Tick(d) => T.Tick(d)
    case Begin(c, i, t) => T.Begin(c, i, t)
    case Probe(c) => T.Probe(c)
    case Lookup(c, up) => T.Lookup(c, Answer(p, s, s.core.calls[c].key, up))
    case Put(c) => T.Put(c, T.CacheOf(s.core, s.core.calls[c].inst))
    case Change(t, v) => T.Remark(Became(t, v))
  }

  function Next<R(==)>(p: Policy<R>, s: State<R>, step: Step<R>): State<R>
    requires Enabled(s, step)
  {
    State(T.Next(p.life, s.core, CoreStep(p, s, step)),
          if step.Change? then s.held[step.tenant := step.value] else s.held)
  }

  predicate Valid<R(==)>(p: Policy<R>, s: State<R>, steps: seq<Step<R>>)
    decreases |steps|
  {
    steps == [] || (Enabled(s, steps[0]) && Valid(p, Next(p, s, steps[0]), steps[1..]))
  }

  function Exec<R(==)>(p: Policy<R>, s: State<R>, steps: seq<Step<R>>): State<R>
    requires Valid(p, s, steps)
    decreases |steps|
  {
    if steps == [] then s else Exec(p, Next(p, s, steps[0]), steps[1..])
  }

  predicate Initial<R(==)>(s: State<R>) {
    T.Initial(s.core) && s.held == map[]
  }

  // ---- answers are honest ----------------------------------------------------------------

  /** What the owner held for a tenant after the first `n` events. */
  function ValueAt<R>(p: Policy<R>, log: Log<R>, n: nat, tenant: string): R
    requires n <= |log|
  {
    if n == 0 then p.initial
    else if log[n - 1].Note? && log[n - 1].note.tenant == tenant then log[n - 1].note.value
    else ValueAt(p, log, n - 1, tenant)
  }

  lemma {:induction false} ValueAtPrefix<R>(p: Policy<R>, a: Log<R>, b: Log<R>, n: nat, tenant: string)
    requires n <= |a| <= |b| && b[..|a|] == a
    ensures ValueAt(p, a, n, tenant) == ValueAt(p, b, n, tenant)
  {
    if n == 0 {
    } else {
      assert a[n - 1] == b[..|a|][n - 1] == b[n - 1];
      ValueAtPrefix(p, a, b, n - 1, tenant);
    }
  }

  /** An answer in the log is a failure or the value of that instant. */
  ghost predicate Honest<R>(p: Policy<R>, log: Log<R>, m: nat) {
    m < |log| && log[m].Answer? && log[m].verdict.Found? ==>
      log[m].verdict.value == ValueAt(p, log, m, log[m].key)
  }

  ghost predicate Inv<R(!new)>(p: Policy<R>, s: State<R>) {
    && T.Inv(p.life, s.core)
    && (forall m: nat :: m < |s.core.log| ==> !s.core.log[m].Seed?)
    && (forall t :: Held(p, s, t) == ValueAt(p, s.core.log, |s.core.log|, t))
    && (forall m: nat :: m < |s.core.log| ==> Honest(p, s.core.log, m))
  }

  lemma LogStep<R>(p: Policy<R>, s: State<R>, step: Step<R>)
    requires Enabled(s, step)
    ensures var t := Next(p, s, step);
            && |s.core.log| <= |t.core.log| <= |s.core.log| + 1 && t.core.log[..|s.core.log|] == s.core.log
            && (|t.core.log| > |s.core.log| ==> !t.core.log[|s.core.log|].Seed?)
            && (!(step.Lookup? || step.Change?) ==> t.core.log == s.core.log)
  {}

  lemma ValueFollowsLog<R>(p: Policy<R>, s: State<R>, step: Step<R>, x: string)
    requires Enabled(s, step) && Held(p, s, x) == ValueAt(p, s.core.log, |s.core.log|, x)
    ensures Held(p, Next(p, s, step), x) == ValueAt(p, Next(p, s, step).core.log, |Next(p, s, step).core.log|, x)
  {
    LogStep(p, s, step);
    ValueAtPrefix(p, s.core.log, Next(p, s, step).core.log, |s.core.log|, x);
  }

  lemma LookupLogs<R>(p: Policy<R>, s: State<R>, step: Step<R>)
    requires Enabled(s, step) && step.Lookup?
    ensures var key := s.core.calls[step.call].key;
            Next(p, s, step).core.log == s.core.log + [T.Answer(key, Answer(p, s, key, step.reachable), s.core.now)]
  {}

  lemma StaysHonest<R>(p: Policy<R>, a: Log<R>, b: Log<R>, m: nat)
    requires m < |a| <= |b| && b[..|a|] == a && Honest(p, a, m)
    ensures Honest(p, b, m)
  {
    assert b[m] == b[..|a|][m] == a[m];
    if b[m].Answer? { ValueAtPrefix(p, a, b, m, b[m].key); }
  }

  lemma NewAnswerIsHonest<R(!new)>(p: Policy<R>, s: State<R>, step: Step<R>)
    requires Inv(p, s) && Enabled(s, step)
    ensures Honest(p, Next(p, s, step).core.log, |s.core.log|)
  {
    if step.Lookup? {
      LookupLogs(p, s, step);
      var key := s.core.calls[step.call].key;
      ValueAtPrefix(p, s.core.log, Next(p, s, step).core.log, |s.core.log|, key);
      assert ValueAt(p, Next(p, s, step).core.log, |s.core.log|, key) == Held(p, s, key);
    } else {
      LogStep(p, s, step);
    }
  }

  lemma NextKeepsInv<R(!new)>(p: Policy<R>, s: State<R>, step: Step<R>)
    requires Inv(p, s) && Enabled(s, step)
    ensures Inv(p, Next(p, s, step))
  {
    T.NextKeepsInv(p.life, s.core, CoreStep(p, s, step));
    LogStep(p, s, step);
    var t := Next(p, s, step);
    assert forall m :: 0 <= m < |s.core.log| ==> t.core.log[m] == t.core.log[..|s.core.log|][m] == s.core.log[m];
    forall x ensures Held(p, t, x) == ValueAt(p, t.core.log, |t.core.log|, x) {
      ValueFollowsLog(p, s, step, x);
    }
    forall m: nat | m < |t.core.log| ensures Honest(p, t.core.log, m) {
      if m < |s.core.log| { StaysHonest(p, s.core.log, t.core.log, m); } else { NewAnswerIsHonest(p, s, step); }
    }
  }

  lemma {:induction false} ExecKeepsInv<R(!new)>(p: Policy<R>, s: State<R>, steps: seq<Step<R>>)
    requires Inv(p, s) && Valid(p, s, steps)
    ensures Inv(p, Exec(p, s, steps))
    decreases |steps|
  {
    if steps == [] {
    } else {
      NextKeepsInv(p, s, steps[0]);
      ExecKeepsInv(p, Next(p, s, steps[0]), steps[1..]);
    }
  }

  lemma ReachableInv<R(!new)>(p: Policy<R>, s0: State<R>, steps: seq<Step<R>>)
    requires Initial(s0) && Valid(p, s0, steps)
    ensures Inv(p, Exec(p, s0, steps))
  {
    T.InitialInv(p.life, s0.core);
    ExecKeepsInv(p, s0, steps);
  }

  // ---- freshness and change -----------------------------------------------------------------

  /** Call `c` of this run is finished. */
  ghost predicate Finished<R(!new)>(p: Policy<R>, s0: State<R>, steps: seq<Step<R>>, c: int) {
    && Initial(s0) && Valid(p, s0, steps)
    && c in Exec(p, s0, steps).core.calls && Exec(p, s0, steps).core.calls[c].Done?
  }

  /**
    A finished call rests on one lookup of its tenant, made no later than its finish and less than one
    life of its outcome before its start, which failed or found the value of that instant.
  */
  lemma Freshness<R(!new)>(p: Policy<R>, s0: State<R>, steps: seq<Step<R>>, c: int)
    requires Finished(p, s0, steps, c)
    ensures var log, d := Exec(p, s0, steps).core.log, Exec(p, s0, steps).core.calls[c];
            && d.source < |log| && log[d.source].Answer?
            && log[d.source].key == d.key && log[d.source].verdict == d.verdict
            && log[d.source].at <= d.finish
            && (d.start <= log[d.source].at || log[d.source].at > d.start - p.life(d.verdict))
            && (d.verdict.Found? ==> d.verdict.value == ValueAt(p, log, d.source, d.key))
  {
    ReachableInv(p, s0, steps);
    var s := Exec(p, s0, steps);
    T.DoneIsFresh(p.life, s.core, c);
    assert Honest(p, s.core.log, s.core.calls[c].source);
  }

  /** Log position `w` is a change for the tenant, and from there on its value always satisfies `good`. */
  ghost predicate ChangedFor<R>(log: Log<R>, w: nat, tenant: string, good: R -> bool) {
    && w < |log| && log[w].Note? && log[w].note.tenant == tenant
    && (forall m: nat :: w <= m < |log| && log[m].Note? && log[m].note.tenant == tenant ==> good(log[m].note.value))
  }

  lemma {:induction false} ValueStays<R>(p: Policy<R>, log: Log<R>, w: nat, n: nat, tenant: string, good: R -> bool)
    requires ChangedFor(log, w, tenant, good) && w < n <= |log|
    ensures good(ValueAt(p, log, n, tenant))
  {
    if log[n - 1].Note? && log[n - 1].note.tenant == tenant {
    } else {
      ValueStays(p, log, w, n - 1, tenant, good);
    }
  }

  /** A lasting change reaches every call that starts one life of its outcome, or more, after it. */
  lemma ChangeBites<R(!new)>(
      p: Policy<R>, s0: State<R>, steps: seq<Step<R>>, w: nat, c: int, good: R -> bool)
    requires Finished(p, s0, steps, c)
    requires var log, d := Exec(p, s0, steps).core.log, Exec(p, s0, steps).core.calls[c];
             && ChangedFor(log, w, d.key, good)
             && p.life(d.verdict) > 0 && log[w].at + p.life(d.verdict) <= d.start
    ensures var d := Exec(p, s0, steps).core.calls[c];
            w < d.source && (d.verdict.Found? ==> good(d.verdict.value))
  {
    Freshness(p, s0, steps, c);
    ReachableInv(p, s0, steps);
    var s := Exec(p, s0, steps);
    var d := s.core.calls[c];
    T.VerdictFollowsEvent(p.life, s.core, c, w);
    ValueStays(p, s.core.log, w, d.source, d.key, good);
  }

  // ---- one call alone -------------------------------------------------------------------------

  /** The steps of one request with nothing in between but time. */
  function MissAlone<R(==)>(p: Policy<R>, s: State<R>, c: int, i: int, t: string, wait: nat, up: bool): State<R>
    requires c !in s.core.calls && t != "" && !T.Hits(T.CacheOf(s.core, i), t, s.core.now)
  {
    Next(p, Next(p, Next(p, Next(p, s, Begin(c, i, t)), Probe(c)), Tick(wait)), Lookup(c, up))
  }

  lemma MissIsCore<R>(p: Policy<R>, s: State<R>, c: int, i: int, t: string, wait: nat, up: bool)
    requires c !in s.core.calls && t != "" && !T.Hits(T.CacheOf(s.core, i), t, s.core.now)
    ensures MissAlone(p, s, c, i, t, wait, up)
         == State(T.Missing(p.life, s.core, c, i, t, wait, Answer(p, s, t, up)), s.held)
  {}

  function CallAlone<R(==)>(p: Policy<R>, s: State<R>, c: int, i: int, t: string, wait: nat, up: bool): State<R>
    requires c !in s.core.calls && t != ""
  {
    if T.Hits(T.CacheOf(s.core, i), t, s.core.now) then Next(p, Next(p, s, Begin(c, i, t)), Probe(c))
    else
      MissIsCore(p, s, c, i, t, wait, up);
      Next(p, MissAlone(p, s, c, i, t, wait, up), Put(c))
  }

  lemma CallIsCore<R>(p: Policy<R>, s: State<R>, c: int, i: int, t: string, wait: nat, up: bool)
    requires c !in s.core.calls && t != ""
    ensures CallAlone(p, s, c, i, t, wait, up)
         == State(T.Alone(p.life, s.core, c, i, t, wait, Answer(p, s, t, up), T.CacheOf(s.core, i)), s.held)
  {
    if !T.Hits(T.CacheOf(s.core, i), t, s.core.now) {
      MissIsCore(p, s, c, i, t, wait, up);
      T.MissingState(p.life, s.core, c, i, t, wait, Answer(p, s, t, up));
    }
  }

  /** `s'` is what one look-aside call for `t` on `i`, answered `reply`, makes of `s`. */
  ghost predicate Called<R>(p: Policy<R>, s: State<R>, s': State<R>, c: int, i: int, t: string, reply: Reply<R>) {
    var cache := T.CacheOf(s.core, i);
    && c in s'.core.calls && s'.core.calls[c].Done?
    && s'.core.calls[c].verdict == T.Verdict(cache, t, s.core.now, reply)
    && T.CacheOf(s'.core, i) == T.CacheAfter(p.life, cache, cache, t, s.core.now, reply)
  }

  lemma CallIsSteps<R>(p: Policy<R>, s: State<R>, c: int, i: int, t: string, wait: nat, up: bool)
    requires c !in s.core.calls && t != ""
    ensures Called(p, s, CallAlone(p, s, c, i, t, wait, up), c, i, t, Answer(p, s, t, up))
  {
    CallIsCore(p, s, c, i, t, wait, up);
    T.AloneIsCall(p.life, s.core, c, i, t, wait, Answer(p, s, t, up), T.CacheOf(s.core, i));
  }

  /** The cache with each reply turned into the outcome made of it. */
  function Judged<R, V>(judge: Reply<R> -> V, cache: map<string, T.Entry<Reply<R>>>): map<string, T.Entry<V>> {
    map t | t in cache :: T.Entry(judge(cache[t].verdict), cache[t].until)
  }

  /** Judging before storing, as the source does, or after reading, as the steps do, is the same. */
  lemma JudgedCommutes<R, V>(
      judge: Reply<R> -> V, p: Policy<R>, life: V -> int, cache: map<string, T.Entry<Reply<R>>>,
      t: string, now: int, r: Reply<R>)
    requires life(judge(r)) == p.life(r)
    ensures judge(T.Verdict(cache, t, now, r)) == T.Verdict(Judged(judge, cache), t, now, judge(r))
    ensures Judged(judge, T.CacheAfter(p.life, cache, cache, t, now, r))
         == T.CacheAfter(life, Judged(judge, cache), Judged(judge, cache), t, now, judge(r))
  {}

  /** Uninterleaved, a request's steps give the outcome and the cache of one look-aside call on outcomes. */
  lemma JudgedCallIsSteps<R, V>(
      judge: Reply<R> -> V, p: Policy<R>, life: V -> int, s: State<R>, c: int, i: int, t: string, wait: nat, up: bool)
    requires c !in s.core.calls && t != "" && life(judge(Answer(p, s, t, up))) == p.life(Answer(p, s, t, up))
    ensures var s' := CallAlone(p, s, c, i, t, wait, up);
            var cache, v := Judged(judge, T.CacheOf(s.core, i)), judge(Answer(p, s, t, up));
            && c in s'.core.calls && s'.core.calls[c].Done?
            && judge(s'.core.calls[c].verdict) == T.Verdict(cache, t, s.core.now, v)
            && Judged(judge, T.CacheOf(s'.core, i)) == T.CacheAfter(life, cache, cache, t, s.core.now, v)
  {
    CallIsSteps(p, s, c, i, t, wait, up);
    JudgedCommutes(judge, p, life, T.CacheOf(s.core, i), t, s.core.now, Answer(p, s, t, up));
  }

  // ---- what a cache used by one caller rests on -----------------------------------------------

  /** A lookup that was made, what it returned, and when. */
  datatype Asked<+R> = Asked(tenant: string, reply: Reply<R>, at: int)

  /** Some lookup of the tenant gives outcome `v` and vouches for it until `until`. */
  ghost predicate Backed<R(!new), V>(
      lookups: seq<Asked<R>>, judge: Reply<R> -> V, life: V -> int, tenant: string, v: V, until: int)
  {
    exists m :: 0 <= m < |lookups| && lookups[m].tenant == tenant && judge(lookups[m].reply) == v
                && until <= lookups[m].at + life(v)
  }

  ghost predicate AllBacked<R(!new), V(!new)>(
      lookups: seq<Asked<R>>, judge: Reply<R> -> V, life: V -> int, cache: map<string, T.Entry<V>>)
  {
    forall t :: t in cache ==> Backed(lookups, judge, life, t, cache[t].verdict, cache[t].until)
  }

  lemma BackedGrows<R(!new), V>(
      lookups: seq<Asked<R>>, more: seq<Asked<R>>, judge: Reply<R> -> V, life: V -> int,
      tenant: string, v: V, until: int)
    requires Backed(lookups, judge, life, tenant, v, until)
    ensures Backed(lookups + more, judge, life, tenant, v, until)
  {
    var m :| 0 <= m < |lookups| && lookups[m].tenant == tenant && judge(lookups[m].reply) == v
             && until <= lookups[m].at + life(v);
    assert (lookups + more)[m] == lookups[m];
  }

  /** The lookups after a call: one more exactly on a miss. */
  function LookupsAfter<R, V>(
      lookups: seq<Asked<R>>, cache: map<string, T.Entry<V>>, tenant: string, now: int, at: int, reply: Reply<R>)
    : seq<Asked<R>>
  {
    if T.Hits(cache, tenant, now) then lookups else lookups + [Asked(tenant, reply, at)]
  }

  /** A look-aside call keeps every entry backed and answers with a backed, unexpired outcome. */
  lemma CallKeepsBacked<R(!new), V(!new)>(
      lookups: seq<Asked<R>>, judge: Reply<R> -> V, life: V -> int, cache: map<string, T.Entry<V>>,
      tenant: string, now: int, at: int, reply: Reply<R>)
    requires AllBacked(lookups, judge, life, cache) && now <= at && life(judge(reply)) > 0
    ensures var lookups' := LookupsAfter(lookups, cache, tenant, now, at, reply);
            && AllBacked(lookups', judge, life, T.CacheAfter(life, cache, cache, tenant, now, judge(reply)))
            && Backed(lookups', judge, life, tenant, T.Verdict(cache, tenant, now, judge(reply)), now + 1)
  {
    if T.Hits(cache, tenant, now) {
      assert Backed(lookups, judge, life, tenant, cache[tenant].verdict, cache[tenant].until);
    } else {
      var v := judge(reply);
      var lookups' := lookups + [Asked(tenant, reply, at)];
      assert lookups'[|lookups|] == Asked(tenant, reply, at);
      assert Backed(lookups', judge, life, tenant, v, now + life(v));
      forall t | t in cache ensures Backed(lookups', judge, life, t, cache[t].verdict, cache[t].until) {
        BackedGrows(lookups, [Asked(tenant, reply, at)], judge, life, t, cache[t].verdict, cache[t].until);
      }
    }
  }
}
