/**
  Sign-out across any number of bridge instances. Each instance keeps its own verdict cache;
  all share one store whose entries expire by themselves. A check is four steps (clock,
  probe, lookup, put) and a sign-out is three (verify the token and compute its remaining
  life, write the store, seed the serving instance's cache); steps of different requests on
  different instances interleave in every way the released locks allow.
*/
module RevocationProtocol {
  import T = TtlCache
  import opened TokenDenylist

  /** `exp` is the expiry signed into the token that carries a jti. */
  datatype Config = Config(opts: Options, exp: string -> int)

  datatype Note = Written(jti: string)

  datatype Writer =
    | Verified(inst: int, jti: string, readAt: int)
    | Stored(inst: int, jti: string, noted: nat)     // `noted`: log position of its write
    | Finished

  type Core = T.State<string, Revocation, Note>

  datatype State = State(core: Core, store: map<string, int>, writers: map<int, Writer>)

  datatype Step =
    | Tick(elapsed: nat)
    | Begin(call: int, inst: int, jti: string)
    | Probe(call: int)
    | Lookup(call: int, reachable: bool)
    | Put(call: int)
    | Clear(inst: int)
    | BeginRevoke(writer: int, inst: int, jti: string)
    | Write(writer: int, reachable: bool)
    | Seed(writer: int)

  function Life(opts: Options): Revocation -> int {
    (v: Revocation) => if v.Unknown? then 0 else opts.cacheTtl
  }

  predicate Enabled(cfg: Config, s: State, step: Step) {
    match step
    case Tick(_) => true
    case Begin(c, _, j) => c !in s.core.calls && j != ""
    case Probe(c) => c in s.core.calls && s.core.calls[c].Begun?
    case Lookup(c, _) => c in s.core.calls && s.core.calls[c].Missed?
    case Put(c) => c in s.core.calls && s.core.calls[c].Answered?
    case Clear(_) => true
    case BeginRevoke(w, _, j) => w !in s.writers && j != "" && s.core.now < cfg.exp(j)
    case Write(w, _) => w in s.writers && s.writers[w].Verified?
    case Seed(w) => w in s.writers && s.writers[w].Stored?
  }

  /** The cache-protocol step a step performs, for those that perform one. */
  function CoreStep(cfg: Config, s: State, step: Step): T.Step<string, Revocation, Note>
    requires Enabled(cfg, s, step)
  {
    match step
    case Tick(d) => T.Tick(d)
    case Begin(c, i, j) => T.Begin(c, i, j)
    case Probe(c) => T.Probe(c)
    case Lookup(c, up) => T.Lookup(c, StoreReply(s.store, s.core.calls[c].key, s.core.now, up))
    case Put(c) =>
      var b := s.core.calls[c];
      T.Put(c, MakeRoom(cfg.opts, T.CacheOf(s.core, b.inst), b.start))
    case Clear(i) => T.Evict(i, map[])
    case BeginRevoke(_, _, _) => T.Tick(0)
    case Write(w, up) => if up then T.Remark(Written(s.writers[w].jti)) else T.Tick(0)
    case Seed(w) => T.SeedCache(s.writers[w].inst, s.writers[w].jti, Revoked)
  }

  lemma CoreStepEnabled(cfg: Config, s: State, step: Step)
    requires Enabled(cfg, s, step)
    ensures T.Enabled(s.core, CoreStep(cfg, s, step))
  {
    if step.Put? {
      var b := s.core.calls[step.call];
      MakeRoomShrinks(cfg.opts, T.CacheOf(s.core, b.inst), b.start);
    }
  }

  /** A sign-out's entry is written with the life the token had when its expiry was read. */
  function Next(cfg: Config, s: State, step: Step): State
    requires Enabled(cfg, s, step)
  {
    CoreStepEnabled(cfg, s, step);
    var t := s.(core := T.Next(Life(cfg.opts), s.core, CoreStep(cfg, s, step)));
    match step
    case BeginRevoke(w, i, j) => t.(writers := s.writers[w := Verified(i, j, s.core.now)])
    case Write(w, up) =>
      var v := s.writers[w];
      if up then
        t.(store := s.store[v.jti := s.core.now + (cfg.exp(v.jti) - v.readAt)],
           writers := s.writers[w := Stored(v.inst, v.jti, |s.core.log|)])
      else
        t.(writers := s.writers[w := Finished])
    case Seed(w) => t.(writers := s.writers[w := Finished])
    case _ => t
  }

  predicate Valid(cfg: Config, s: State, steps: seq<Step>)
    decreases |steps|
  {
    steps == [] || (Enabled(cfg, s, steps[0]) && Valid(cfg, Next(cfg, s, steps[0]), steps[1..]))
  }

  function Exec(cfg: Config, s: State, steps: seq<Step>): State
    requires Valid(cfg, s, steps)
    decreases |steps|
  {
    if steps == [] then s else Exec(cfg, Next(cfg, s, steps[0]), steps[1..])
  }

  predicate Initial(s: State) {
    T.Initial(s.core) && s.store == map[] && s.writers == map[]
  }

  // ---- invariant -------------------------------------------------------------------

  ghost predicate WrittenAt(s: State, w: nat, j: string) {
    w < |s.core.log| && s.core.log[w].Note? && s.core.log[w].note == Written(j)
  }

  ghost predicate AllowedAt(s: State, m: nat, j: string) {
    T.Gives(s.core, m, j, Allowed)
  }

  /** Every sign-out's entry outlives its token. */
  ghost predicate EntriesOutlive(cfg: Config, s: State) {
    forall w: nat, j :: WrittenAt(s, w, j) ==> j in s.store && cfg.exp(j) <= s.store[j]
  }

  /** After a write the store says Allowed again only once the token has expired. */
  ghost predicate WritesHold(cfg: Config, s: State) {
    forall w: nat, m: nat, j :: WrittenAt(s, w, j) && AllowedAt(s, m, j) && w < m ==> cfg.exp(j) <= s.core.log[m].at
  }

  ghost predicate WritersSound(cfg: Config, s: State) {
    forall w :: w in s.writers ==>
      && (s.writers[w].Verified? ==> s.writers[w].readAt <= s.core.now && s.writers[w].jti != "")
      && (s.writers[w].Stored? ==> WrittenAt(s, s.writers[w].noted, s.writers[w].jti) && s.writers[w].jti != "")
  }

  ghost predicate Inv(cfg: Config, s: State) {
    && T.Inv(Life(cfg.opts), s.core)
    && EntriesOutlive(cfg, s) && WritesHold(cfg, s) && WritersSound(cfg, s)
  }

  /** What a step may add to the log: at most one event, of the present instant. */
  lemma LogStep(cfg: Config, s: State, step: Step)
    requires Enabled(cfg, s, step)
    ensures var t := Next(cfg, s, step);
            && |s.core.log| <= |t.core.log| <= |s.core.log| + 1 && t.core.log[..|s.core.log|] == s.core.log
            && (t.core.log != s.core.log <==> step.Lookup? || step.Seed? || (step.Write? && step.reachable))
  {}

  lemma NextKeepsEntries(cfg: Config, s: State, step: Step)
    requires Inv(cfg, s) && Enabled(cfg, s, step)
    ensures EntriesOutlive(cfg, Next(cfg, s, step))
  {
    LogStep(cfg, s, step);
    var t := Next(cfg, s, step);
    forall w: nat, j | WrittenAt(t, w, j) ensures j in t.store && cfg.exp(j) <= t.store[j] {
      if w < |s.core.log| { assert s.core.log[w] == t.core.log[w]; assert WrittenAt(s, w, j); }
    }
  }

  lemma NextKeepsWrites(cfg: Config, s: State, step: Step)
    requires Inv(cfg, s) && Enabled(cfg, s, step)
    ensures WritesHold(cfg, Next(cfg, s, step))
  {
    LogStep(cfg, s, step);
    var t := Next(cfg, s, step);
    forall w: nat, m: nat, j | WrittenAt(t, w, j) && AllowedAt(t, m, j) && w < m
      ensures cfg.exp(j) <= t.core.log[m].at
    {
      assert s.core.log[w] == t.core.log[w];
      assert WrittenAt(s, w, j);
      if m < |s.core.log| { assert s.core.log[m] == t.core.log[m]; assert AllowedAt(s, m, j); }
    }
  }

  lemma NextKeepsWriters(cfg: Config, s: State, step: Step)
    requires Inv(cfg, s) && Enabled(cfg, s, step)
    ensures WritersSound(cfg, Next(cfg, s, step))
  {
    LogStep(cfg, s, step);
    var t := Next(cfg, s, step);
    forall w | w in t.writers
      ensures t.writers[w].Verified? ==> t.writers[w].readAt <= t.core.now && t.writers[w].jti != ""
      ensures t.writers[w].Stored? ==> WrittenAt(t, t.writers[w].noted, t.writers[w].jti) && t.writers[w].jti != ""
    {
      if w in s.writers && s.writers[w] == t.writers[w] && t.writers[w].Stored? {
        assert WrittenAt(s, t.writers[w].noted, t.writers[w].jti);
        assert t.core.log[t.writers[w].noted] == s.core.log[t.writers[w].noted];
      }
    }
  }

  lemma NextKeepsInv(cfg: Config, s: State, step: Step)
    requires Inv(cfg, s) && Enabled(cfg, s, step)
    ensures Inv(cfg, Next(cfg, s, step))
  {
    CoreStepEnabled(cfg, s, step);
    T.NextKeepsInv(Life(cfg.opts), s.core, CoreStep(cfg, s, step));
    NextKeepsEntries(cfg, s, step);
    NextKeepsWrites(cfg, s, step);
    NextKeepsWriters(cfg, s, step);
  }

  lemma {:induction false} ExecKeepsInv(cfg: Config, s: State, steps: seq<Step>)
    requires Inv(cfg, s) && Valid(cfg, s, steps)
    ensures Inv(cfg, Exec(cfg, s, steps))
    decreases |steps|
  {
    if steps == [] {
    } else {
      NextKeepsInv(cfg, s, steps[0]);
      ExecKeepsInv(cfg, Next(cfg, s, steps[0]), steps[1..]);
    }
  }

  lemma ReachableInv(cfg: Config, s0: State, steps: seq<Step>)
    requires Initial(s0) && Valid(cfg, s0, steps)
    ensures Inv(cfg, Exec(cfg, s0, steps))
  {
    T.InitialInv(Life(cfg.opts), s0.core);
    ExecKeepsInv(cfg, s0, steps);
  }

  // ---- the cache refines the direct lookup -------------------------------------------

  /**
    In every run, each verdict is one that was given for that jti, by the store or by a seed,
    not later than the check's finish and later than its start less the cache life; Unknown
    is always the check's own failed lookup.
  */
  lemma VerdictIsRecent(cfg: Config, s0: State, steps: seq<Step>, c: int)
    requires Initial(s0) && Valid(cfg, s0, steps)
    requires var s := Exec(cfg, s0, steps); c in s.core.calls && s.core.calls[c].Done?
    ensures var s := Exec(cfg, s0, steps);
            var d := s.core.calls[c];
            && T.Gives(s.core, d.source, d.key, d.verdict)
            && s.core.log[d.source].at <= d.finish
            && (d.start <= s.core.log[d.source].at || s.core.log[d.source].at > d.start - cfg.opts.cacheTtl)
            && (d.verdict.Unknown? ==> s.core.log[d.source].Answer? && d.mark <= d.source)
  {
    ReachableInv(cfg, s0, steps);
    T.DoneIsFresh(Life(cfg.opts), Exec(cfg, s0, steps).core, c);
  }

  // ---- revocation latency ------------------------------------------------------------

  function Max(a: int, b: int): int { if a < b then b else a }

  /**
    Once a sign-out's write is in the store (log position `w`), every check of that jti on any
    instance that starts at least `cacheTtl` seconds later and finishes before the token
    expires is not Allowed, so a fail-closed bridge refuses the token. With caching off
    "later" within the same second means later in order.
  */
  lemma RevocationLatency(cfg: Config, s0: State, steps: seq<Step>, w: nat, c: int)
    requires Initial(s0) && Valid(cfg, s0, steps)
    requires var s := Exec(cfg, s0, steps);
             && c in s.core.calls && s.core.calls[c].Done?
             && var d := s.core.calls[c];
             && WrittenAt(s, w, d.key)
             && s.core.log[w].at + Max(0, cfg.opts.cacheTtl) <= d.start
             && (cfg.opts.cacheTtl <= 0 ==> w < d.mark)
             && d.finish < cfg.exp(d.key)
    ensures var v := Exec(cfg, s0, steps).core.calls[c].verdict;
            !v.Allowed? && (!cfg.opts.failOpen ==> !Policy(cfg.opts, v))
  {
    ReachableInv(cfg, s0, steps);
    var s := Exec(cfg, s0, steps);
    var d := s.core.calls[c];
    T.DoneIsFresh(Life(cfg.opts), s.core, c);
    T.VerdictFollowsEvent(Life(cfg.opts), s.core, c, w);
    assert WrittenAt(s, w, d.key) && (AllowedAt(s, d.source, d.key) <==> d.verdict.Allowed?);
  }

  // ---- the serving instance ----------------------------------------------------------

  /** A check of `j` on `i` already holds an Allowed answer young enough to be believed. */
  ghost predicate StaleAnswer(cfg: Config, s: State, i: int, j: string) {
    exists c :: c in s.core.calls && Stale(cfg, s, s.core.calls[c], i, j)
  }

  predicate Stale(cfg: Config, s: State, b: T.Call<string, Revocation>, i: int, j: string) {
    && b.Answered? && b.inst == i && b.key == j && b.verdict.Allowed?
    && b.start + cfg.opts.cacheTtl > s.core.now
  }

  /** A check of `j` on `i` that began after log position `q` was Allowed before the token expired. */
  predicate Slips(cfg: Config, d: T.Call<string, Revocation>, i: int, j: string, q: nat) {
    d.Done? && d.inst == i && d.key == j && d.mark > q && d.verdict.Allowed? && d.finish < cfg.exp(j)
  }

  /** Whatever happens next, no check that begins after `q` slips through. */
  ghost predicate RefusedFromNowOn(cfg: Config, s: State, i: int, j: string, q: nat) {
    forall more, c :: Valid(cfg, s, more) && c in Exec(cfg, s, more).core.calls ==>
      !Slips(cfg, Exec(cfg, s, more).core.calls[c], i, j, q)
  }

  /** What keeps new checks refused once the seed at `q` is in: nothing believable says Allowed. */
  ghost predicate Settled(cfg: Config, s: State, i: int, j: string, q: nat, w: nat) {
    && Inv(cfg, s) && cfg.opts.cacheTtl > 0
    && w < q < |s.core.log| && WrittenAt(s, w, j)
    && (j in T.CacheOf(s.core, i) ==> EntryHarmless(cfg, s, T.CacheOf(s.core, i)[j], i, j, q))
    && (forall c :: c in s.core.calls ==> CallHarmless(cfg, s, s.core.calls[c], i, j, q))
  }

  ghost predicate EntryHarmless(cfg: Config, s: State, e: T.Entry<Revocation>, i: int, j: string, q: nat)
    requires q < |s.core.log|
  {
    e.verdict.Allowed? ==> e.until <= s.core.log[q].at || TooLate(cfg, s, T.SourceOf(s.core, i, j), j)
  }

  ghost predicate CallHarmless(cfg: Config, s: State, b: T.Call<string, Revocation>, i: int, j: string, q: nat)
    requires q < |s.core.log|
  {
    b.inst == i && b.key == j ==>
      && (b.Answered? && b.verdict.Allowed? ==>
            b.start + cfg.opts.cacheTtl <= s.core.log[q].at || TooLate(cfg, s, b.source, j))
      && (b.Done? && b.mark > q && b.verdict.Allowed? ==> TooLate(cfg, s, b.source, j))
  }

  ghost predicate TooLate(cfg: Config, s: State, m: nat, j: string) {
    m < |s.core.log| && cfg.exp(j) <= s.core.log[m].at
  }

  /** This step is one of call `c`'s own. */
  predicate ActsFor(step: Step, c: int) {
    (step.Begin? || step.Probe? || step.Lookup? || step.Put?) && step.call == c
  }

  /** Which calls and slots a step leaves alone. */
  lemma Frame(cfg: Config, s: State, step: Step)
    requires Enabled(cfg, s, step)
    ensures var t := Next(cfg, s, step);
            && (forall c :: c in t.core.calls && !ActsFor(step, c) ==>
                  c in s.core.calls && t.core.calls[c] == s.core.calls[c])
            && (!(step.Put? || step.Clear? || step.Seed?) ==>
                  t.core.caches == s.core.caches && t.core.sources == s.core.sources)
  {}

  lemma HarmlessCallStays(cfg: Config, s: State, t: State, b: T.Call<string, Revocation>, i: int, j: string, q: nat)
    requires q < |s.core.log| <= |t.core.log| && t.core.log[..|s.core.log|] == s.core.log
    requires CallHarmless(cfg, s, b, i, j, q)
    ensures CallHarmless(cfg, t, b, i, j, q)
  {
    assert forall m :: 0 <= m < |s.core.log| ==> t.core.log[m] == t.core.log[..|s.core.log|][m] == s.core.log[m];
  }

  lemma SettledLookup(cfg: Config, s: State, step: Step, i: int, j: string, q: nat, w: nat)
    requires Settled(cfg, s, i, j, q, w) && Enabled(cfg, s, step) && step.Lookup?
    requires Inv(cfg, Next(cfg, s, step))
    ensures q < |Next(cfg, s, step).core.log|
    ensures CallHarmless(cfg, Next(cfg, s, step), Next(cfg, s, step).core.calls[step.call], i, j, q)
  {
    LogStep(cfg, s, step);
    var t := Next(cfg, s, step);
    var d := t.core.calls[step.call];
    assert t.core.log[w] == s.core.log[w];
    if d.key == j && d.verdict.Allowed? {
      assert WrittenAt(t, w, j) && AllowedAt(t, d.source, j);
    }
  }

  lemma SettledProbe(cfg: Config, s: State, step: Step, i: int, j: string, q: nat, w: nat)
    requires Settled(cfg, s, i, j, q, w) && Enabled(cfg, s, step) && step.Probe?
    ensures q < |Next(cfg, s, step).core.log|
    ensures CallHarmless(cfg, Next(cfg, s, step), Next(cfg, s, step).core.calls[step.call], i, j, q)
  {
    LogStep(cfg, s, step);
    var b := s.core.calls[step.call];
    assert T.CallSound(Life(cfg.opts), s.core, b);
    if b.inst == i && b.key == j && b.mark > q {
      assert s.core.log[q].at <= b.start;
    }
  }

  lemma SettledPut(cfg: Config, s: State, step: Step, i: int, j: string, q: nat, w: nat)
    requires Settled(cfg, s, i, j, q, w) && Enabled(cfg, s, step) && step.Put?
    ensures q < |Next(cfg, s, step).core.log|
    ensures CallHarmless(cfg, Next(cfg, s, step), Next(cfg, s, step).core.calls[step.call], i, j, q)
    ensures j in T.CacheOf(Next(cfg, s, step).core, i) ==>
              EntryHarmless(cfg, Next(cfg, s, step), T.CacheOf(Next(cfg, s, step).core, i)[j], i, j, q)
  {
    LogStep(cfg, s, step);
    var b := s.core.calls[step.call];
    assert CallHarmless(cfg, s, b, i, j, q);
    assert T.CallSound(Life(cfg.opts), s.core, b);
    PutSlot(cfg, s, step, i, j);
  }

  /** A slot left alone while the log grows stays harmless. */
  lemma SlotStaysHarmless(cfg: Config, s: State, t: State, i: int, j: string, q: nat)
    requires q < |s.core.log| <= |t.core.log| && t.core.log[..|s.core.log|] == s.core.log
    requires j in T.CacheOf(s.core, i) && EntryHarmless(cfg, s, T.CacheOf(s.core, i)[j], i, j, q)
    requires j in T.CacheOf(t.core, i) && T.CacheOf(t.core, i)[j] == T.CacheOf(s.core, i)[j]
    requires T.SourceOf(t.core, i, j) == T.SourceOf(s.core, i, j)
    ensures EntryHarmless(cfg, t, T.CacheOf(t.core, i)[j], i, j, q)
  {
    assert forall m :: 0 <= m < |s.core.log| ==> t.core.log[m] == t.core.log[..|s.core.log|][m] == s.core.log[m];
  }

  /** Clearing touches no source. */
  lemma ClearSlot(cfg: Config, s: State, step: Step, i: int, j: string)
    requires Enabled(cfg, s, step) && step.Clear?
    ensures var t := Next(cfg, s, step);
            && T.SourceOf(t.core, i, j) == T.SourceOf(s.core, i, j)
            && (j in T.CacheOf(t.core, i) ==>
                  j in T.CacheOf(s.core, i) && T.CacheOf(t.core, i)[j] == T.CacheOf(s.core, i)[j])
  {}

  lemma SettledEntry(cfg: Config, s: State, step: Step, i: int, j: string, q: nat, w: nat)
    requires Settled(cfg, s, i, j, q, w) && Enabled(cfg, s, step) && !step.Put?
    ensures var t := Next(cfg, s, step);
            q < |t.core.log| &&
            (j in T.CacheOf(t.core, i) ==> EntryHarmless(cfg, t, T.CacheOf(t.core, i)[j], i, j, q))
  {
    LogStep(cfg, s, step);
    var t := Next(cfg, s, step);
    if step.Seed? {
      SeedSlot(cfg, s, step, i, j);
    } else if step.Clear? {
      ClearSlot(cfg, s, step, i, j);
    } else {
      Frame(cfg, s, step);
    }
    if j in T.CacheOf(t.core, i) && !T.CacheOf(t.core, i)[j].verdict.Revoked? {
      SlotStaysHarmless(cfg, s, t, i, j, q);
    }
  }

  /** A seed puts Revoked in its own slot and touches no other. */
  lemma SeedSlot(cfg: Config, s: State, step: Step, i: int, j: string)
    requires Enabled(cfg, s, step) && step.Seed? && cfg.opts.cacheTtl > 0
    ensures var t := Next(cfg, s, step);
            var v := s.writers[step.writer];
            if v.inst == i && v.jti == j then
              j in T.CacheOf(t.core, i) && T.CacheOf(t.core, i)[j].verdict.Revoked?
            else
              && (j in T.CacheOf(t.core, i) <==> j in T.CacheOf(s.core, i))
              && (j in T.CacheOf(s.core, i) ==> T.CacheOf(t.core, i)[j] == T.CacheOf(s.core, i)[j])
              && T.SourceOf(t.core, i, j) == T.SourceOf(s.core, i, j)
  {}

  /** A put fills its call's slot from its call's answer; any other slot is kept or dropped. */
  lemma PutSlot(cfg: Config, s: State, step: Step, i: int, j: string)
    requires Enabled(cfg, s, step) && step.Put? && cfg.opts.cacheTtl > 0
    ensures var t := Next(cfg, s, step);
            var b := s.core.calls[step.call];
            && t.core.log == s.core.log
            && t.core.calls[step.call] == T.Done(b.inst, b.key, b.start, b.mark, b.verdict, b.source, s.core.now)
            && if b.inst == i && b.key == j && !b.verdict.Unknown? then
                 && j in T.CacheOf(t.core, i) && T.SourceOf(t.core, i, j) == b.source
                 && T.CacheOf(t.core, i)[j] == T.Entry(b.verdict, b.start + cfg.opts.cacheTtl)
               else
                 && T.SourceOf(t.core, i, j) == T.SourceOf(s.core, i, j)
                 && (j in T.CacheOf(t.core, i) ==>
                       j in T.CacheOf(s.core, i) && T.CacheOf(t.core, i)[j] == T.CacheOf(s.core, i)[j])
  {
    var b := s.core.calls[step.call];
    MakeRoomShrinks(cfg.opts, T.CacheOf(s.core, b.inst), b.start);
  }

  lemma NextKeepsSettled(cfg: Config, s: State, step: Step, i: int, j: string, q: nat, w: nat)
    requires Settled(cfg, s, i, j, q, w) && Enabled(cfg, s, step)
    ensures Settled(cfg, Next(cfg, s, step), i, j, q, w)
  {
    var t := Next(cfg, s, step);
    NextKeepsInv(cfg, s, step);
    LogStep(cfg, s, step);
    assert t.core.log[w] == s.core.log[w];
    Frame(cfg, s, step);
    if step.Put? { SettledPut(cfg, s, step, i, j, q, w); } else { SettledEntry(cfg, s, step, i, j, q, w); }
    if step.Probe? { SettledProbe(cfg, s, step, i, j, q, w); }
    if step.Lookup? { SettledLookup(cfg, s, step, i, j, q, w); }
    forall c | c in t.core.calls ensures CallHarmless(cfg, t, t.core.calls[c], i, j, q) {
      if c in s.core.calls && s.core.calls[c] == t.core.calls[c] {
        HarmlessCallStays(cfg, s, t, s.core.calls[c], i, j, q);
      }
    }
  }

  lemma {:induction false} ExecKeepsSettled(cfg: Config, s: State, more: seq<Step>, i: int, j: string, q: nat, w: nat)
    requires Settled(cfg, s, i, j, q, w) && Valid(cfg, s, more)
    ensures Settled(cfg, Exec(cfg, s, more), i, j, q, w)
    decreases |more|
  {
    if more == [] {
    } else {
      NextKeepsSettled(cfg, s, more[0], i, j, q, w);
      ExecKeepsSettled(cfg, Next(cfg, s, more[0]), more[1..], i, j, q, w);
    }
  }

  lemma SettledRefuses(cfg: Config, s: State, i: int, j: string, q: nat, w: nat)
    requires Settled(cfg, s, i, j, q, w)
    ensures RefusedFromNowOn(cfg, s, i, j, q)
  {
    forall more, c | Valid(cfg, s, more) && c in Exec(cfg, s, more).core.calls
      ensures !Slips(cfg, Exec(cfg, s, more).core.calls[c], i, j, q)
    {
      ExecKeepsSettled(cfg, s, more, i, j, q, w);
      var t := Exec(cfg, s, more);
      assert CallHarmless(cfg, t, t.core.calls[c], i, j, q);
      assert T.CallSound(Life(cfg.opts), t.core, t.core.calls[c]);
    }
  }

  lemma {:induction false} UnusedId(used: set<int>) returns (id: int)
    ensures forall x :: x in used ==> x < id
  {
    if x :| x in used {
      var rest := UnusedId(used - {x});
      id := Max(rest, x + 1);
      assert forall y :: y in used ==> y == x || y in used - {x};
    } else {
      id := 0;
    }
  }

  /** The three steps by which an answer already in flight defeats the seed. */
  lemma StaleAnswerSlips(cfg: Config, s: State, i: int, j: string, q: nat, c: int)
    requires cfg.opts.cacheTtl > 0 && j != "" && s.core.now < cfg.exp(j) && q < |s.core.log|
    requires c in s.core.calls && Stale(cfg, s, s.core.calls[c], i, j)
    ensures !RefusedFromNowOn(cfg, s, i, j, q)
  {
    var f := UnusedId(s.core.calls.Keys);
    var more := [Put(c), Begin(f, i, j), Probe(f)];
    var s1 := Next(cfg, s, Put(c));
    assert f !in s1.core.calls;
    var s2 := Next(cfg, s1, Begin(f, i, j));
    var s3 := Next(cfg, s2, Probe(f));
    assert more[1..] == [Begin(f, i, j), Probe(f)] && more[1..][1..] == [Probe(f)] && more[1..][1..][1..] == [];
    assert Valid(cfg, s3, []);
    assert Valid(cfg, s2, [Probe(f)]);
    assert Valid(cfg, s1, more[1..]);
    assert Exec(cfg, s, more) == Exec(cfg, s1, more[1..]) == Exec(cfg, s2, [Probe(f)]) == s3;
    assert Slips(cfg, s3.core.calls[f], i, j, q);
  }

  lemma SeedSettles(cfg: Config, s: State, writer: int)
    requires Inv(cfg, s) && Enabled(cfg, s, Seed(writer)) && Inv(cfg, Next(cfg, s, Seed(writer)))
    requires cfg.opts.cacheTtl > 0
    requires !StaleAnswer(cfg, Next(cfg, s, Seed(writer)), s.writers[writer].inst, s.writers[writer].jti)
    ensures var v := s.writers[writer];
            Settled(cfg, Next(cfg, s, Seed(writer)), v.inst, v.jti, |s.core.log|, v.noted)
  {
    var t, v, q := Next(cfg, s, Seed(writer)), s.writers[writer], |s.core.log|;
    assert WrittenAt(s, v.noted, v.jti);
    assert t.core.log[v.noted] == s.core.log[v.noted];
    forall c | c in t.core.calls ensures CallHarmless(cfg, t, t.core.calls[c], v.inst, v.jti, q) {
      assert !Stale(cfg, t, t.core.calls[c], v.inst, v.jti);
      assert T.CallSound(Life(cfg.opts), s.core, s.core.calls[c]);
    }
  }

  /**
    Seeding is meant to stop the serving instance at once. It does, for every later check and
    every continuation, exactly when no check of that token on that instance is holding an
    Allowed answer that is still inside its cache life when the seed lands.
  */
  lemma SeedStopsInstance(cfg: Config, s0: State, steps: seq<Step>, writer: int)
    requires Initial(s0) && Valid(cfg, s0, steps) && cfg.opts.cacheTtl > 0
    requires var s := Exec(cfg, s0, steps);
             && Enabled(cfg, s, Seed(writer))
             && s.core.now < cfg.exp(s.writers[writer].jti)
    ensures var s := Exec(cfg, s0, steps);
            var t := Next(cfg, s, Seed(writer));
            var v := s.writers[writer];
            RefusedFromNowOn(cfg, t, v.inst, v.jti, |s.core.log|) <==> !StaleAnswer(cfg, t, v.inst, v.jti)
  {
    var s := Exec(cfg, s0, steps);
    var t := Next(cfg, s, Seed(writer));
    var v := s.writers[writer];
    var q := |s.core.log|;
    ReachableInv(cfg, s0, steps);
    NextKeepsInv(cfg, s, Seed(writer));
    if StaleAnswer(cfg, t, v.inst, v.jti) {
      var c :| c in t.core.calls && Stale(cfg, t, t.core.calls[c], v.inst, v.jti);
      StaleAnswerSlips(cfg, t, v.inst, v.jti, q, c);
    } else {
      SeedSettles(cfg, s, writer);
      SettledRefuses(cfg, t, v.inst, v.jti, q, v.noted);
    }
  }

  lemma {:induction false} ExecAppend(cfg: Config, s: State, a: seq<Step>, b: seq<Step>)
    requires Valid(cfg, s, a) && Valid(cfg, Exec(cfg, s, a), b)
    ensures Valid(cfg, s, a + b) && Exec(cfg, s, a + b) == Exec(cfg, Exec(cfg, s, a), b)
    decreases |a|
  {
    if a == [] {
      assert a + b == b;
    } else {
      assert (a + b)[1..] == a[1..] + b;
      ExecAppend(cfg, Next(cfg, s, a[0]), a[1..], b);
    }
  }

  lemma OneStep(cfg: Config, s: State, a: Step)
    requires Enabled(cfg, s, a)
    ensures Valid(cfg, s, [a]) && Exec(cfg, s, [a]) == Next(cfg, s, a)
  {
    assert Valid(cfg, Next(cfg, s, a), [a][1..]);
  }

  /** The lookup half of the race: an Allowed answer, not yet stored. */
  lemma RaceLookup(cfg: Config, s: State, i: int, j: string) returns (steps: seq<Step>)
    requires Initial(s) && j != ""
    ensures Valid(cfg, s, steps)
    ensures var t := Exec(cfg, s, steps);
            && t.core.calls == map[0 := T.Answered(i, j, s.core.now, 0, Allowed, 0)]
            && t.core.now == s.core.now && t.writers == map[]
  {
    OneStep(cfg, s, Begin(0, i, j));
    var s1 := Next(cfg, s, Begin(0, i, j));
    OneStep(cfg, s1, Probe(0));
    var s2 := Next(cfg, s1, Probe(0));
    OneStep(cfg, s2, Lookup(0, true));
    ExecAppend(cfg, s, [Begin(0, i, j)], [Probe(0)]);
    ExecAppend(cfg, s, [Begin(0, i, j)] + [Probe(0)], [Lookup(0, true)]);
    steps := [Begin(0, i, j)] + [Probe(0)] + [Lookup(0, true)];
  }

  /** The sign-out half, up to its seed. */
  lemma RaceWrite(cfg: Config, s: State, i: int, j: string) returns (steps: seq<Step>)
    requires s.writers == map[] && j != "" && s.core.now < cfg.exp(j)
    ensures Valid(cfg, s, steps)
    ensures var t := Exec(cfg, s, steps);
            && t.core.calls == s.core.calls && t.core.now == s.core.now
            && 0 in t.writers && t.writers[0] == Stored(i, j, |s.core.log|)
  {
    OneStep(cfg, s, BeginRevoke(0, i, j));
    OneStep(cfg, Next(cfg, s, BeginRevoke(0, i, j)), Write(0, true));
    ExecAppend(cfg, s, [BeginRevoke(0, i, j)], [Write(0, true)]);
    steps := [BeginRevoke(0, i, j)] + [Write(0, true)];
  }

  /** Such an answer can be in flight: a lookup overtaken by a whole sign-out. */
  lemma SeedRaceIsReachable(cfg: Config, s0: State, i: int, j: string) returns (steps: seq<Step>)
    requires Initial(s0) && cfg.opts.cacheTtl > 0 && j != "" && s0.core.now < cfg.exp(j)
    ensures Valid(cfg, s0, steps)
    ensures var s := Exec(cfg, s0, steps);
            Enabled(cfg, s, Seed(0)) && s.writers[0].inst == i && s.writers[0].jti == j
            && StaleAnswer(cfg, Next(cfg, s, Seed(0)), i, j)
  {
    var looked := RaceLookup(cfg, s0, i, j);
    var s1 := Exec(cfg, s0, looked);
    var wrote := RaceWrite(cfg, s1, i, j);
    ExecAppend(cfg, s0, looked, wrote);
    steps := looked + wrote;
    var t := Next(cfg, Exec(cfg, s0, steps), Seed(0));
    assert 0 in t.core.calls && Stale(cfg, t, t.core.calls[0], i, j);
  }

  // ---- the exact verdict -------------------------------------------------------------------

  /** Some sign-out of `j` was written before log position `m`. */
  ghost predicate WrittenBefore(s: State, m: nat, j: string) {
    exists w: nat :: w < m && WrittenAt(s, w, j)
  }

  /** A store entry, and a Revoked answer or seed, each have a sign-out behind them. */
  ghost predicate WritesBehind(s: State) {
    && (forall j :: j in s.store ==> WrittenBefore(s, |s.core.log|, j))
    && (forall m: nat, j :: T.Gives(s.core, m, j, Revoked) ==> WrittenBefore(s, m, j))
  }

  lemma WrittenStaysBefore(s: State, t: State, m: nat, n: nat, j: string)
    requires |s.core.log| <= |t.core.log| && t.core.log[..|s.core.log|] == s.core.log
    requires WrittenBefore(s, m, j) && m <= n
    ensures WrittenBefore(t, n, j)
  {
    var w: nat :| w < m && WrittenAt(s, w, j);
    assert t.core.log[w] == t.core.log[..|s.core.log|][w] == s.core.log[w];
    assert WrittenAt(t, w, j);
  }

  /** What a step appends, if it appends a Revoked verdict, and what it may store. */
  lemma RevokedStep(cfg: Config, s: State, step: Step, j: string)
    requires Inv(cfg, s) && WritesBehind(s) && Enabled(cfg, s, step)
    ensures var n := |s.core.log|;
            T.Gives(Next(cfg, s, step).core, n, j, Revoked) ==> WrittenBefore(s, n, j)
  {
    if step.Seed? {
      var v := s.writers[step.writer];
      assert WrittenAt(s, v.noted, v.jti);
      assert Next(cfg, s, step).core.log[|s.core.log|] == T.Seed(v.inst, v.jti, Revoked, s.core.now);
    } else {
      LogStep(cfg, s, step);
    }
  }

  lemma StoreStep(cfg: Config, s: State, step: Step, j: string)
    requires WritesBehind(s) && Enabled(cfg, s, step) && j in Next(cfg, s, step).store
    ensures WrittenBefore(Next(cfg, s, step), |Next(cfg, s, step).core.log|, j)
  {
    LogStep(cfg, s, step);
    var t := Next(cfg, s, step);
    if j in s.store {
      WrittenStaysBefore(s, t, |s.core.log|, |t.core.log|, j);
    } else {
      assert WrittenAt(t, |s.core.log|, j);
    }
  }

  lemma NextKeepsBehind(cfg: Config, s: State, step: Step)
    requires Inv(cfg, s) && WritesBehind(s) && Enabled(cfg, s, step)
    ensures WritesBehind(Next(cfg, s, step))
  {
    LogStep(cfg, s, step);
    var t, n := Next(cfg, s, step), |s.core.log|;
    forall j | j in t.store ensures WrittenBefore(t, |t.core.log|, j) {
      StoreStep(cfg, s, step, j);
    }
    forall m: nat, j | T.Gives(t.core, m, j, Revoked) ensures WrittenBefore(t, m, j) {
      if m < n {
        assert t.core.log[m] == t.core.log[..n][m] == s.core.log[m];
        assert T.Gives(s.core, m, j, Revoked);
      } else {
        RevokedStep(cfg, s, step, j);
      }
      WrittenStaysBefore(s, t, m, m, j);
    }
  }

  lemma {:induction false} ExecKeepsBehind(cfg: Config, s: State, steps: seq<Step>)
    requires Inv(cfg, s) && WritesBehind(s) && Valid(cfg, s, steps)
    ensures WritesBehind(Exec(cfg, s, steps))
    decreases |steps|
  {
    if steps == [] {
    } else {
      NextKeepsInv(cfg, s, steps[0]);
      NextKeepsBehind(cfg, s, steps[0]);
      ExecKeepsBehind(cfg, Next(cfg, s, steps[0]), steps[1..]);
    }
  }

  lemma AllowedHasNoWrite(cfg: Config, s: State, m: nat, j: string)
    requires Inv(cfg, s) && AllowedAt(s, m, j) && s.core.log[m].at < cfg.exp(j)
    ensures !WrittenBefore(s, m, j)
  {}

  /**
    The exact verdict, in every run and with any cache life: a check that got one, and finished before
    the token expired, is Allowed exactly when the answer it rests on precedes every sign-out.
  */
  lemma AllowedIffNoEarlierWrite(cfg: Config, s0: State, steps: seq<Step>, c: int)
    requires Initial(s0) && Valid(cfg, s0, steps)
    requires var s := Exec(cfg, s0, steps);
             && c in s.core.calls && s.core.calls[c].Done?
             && !s.core.calls[c].verdict.Unknown? && s.core.calls[c].finish < cfg.exp(s.core.calls[c].key)
    ensures var s := Exec(cfg, s0, steps);
            var d := s.core.calls[c];
            d.verdict.Allowed? <==> !WrittenBefore(s, d.source, d.key)
  {
    ReachableInv(cfg, s0, steps);
    T.InitialInv(Life(cfg.opts), s0.core);
    ExecKeepsBehind(cfg, s0, steps);
    var s := Exec(cfg, s0, steps);
    var d := s.core.calls[c];
    T.DoneIsFresh(Life(cfg.opts), s.core, c);
    if d.verdict.Allowed? { AllowedHasNoWrite(cfg, s, d.source, d.key); }
  }

  /**
    With caching off, a check in the very second of the write may still be Allowed: its lookup came
    first. So the latency bound asks for "later in order" there, and not only for a start in time.
  */
  lemma SameSecondSlips(cfg: Config, s0: State, i: int, j: string) returns (steps: seq<Step>, w: nat)
    requires Initial(s0) && cfg.opts.cacheTtl <= 0 && j != "" && s0.core.now < cfg.exp(j)
    ensures Valid(cfg, s0, steps)
    ensures var s := Exec(cfg, s0, steps);
            && 0 in s.core.calls && s.core.calls[0].Done? && WrittenAt(s, w, j)
            && var d := s.core.calls[0];
            && d.key == j && d.verdict.Allowed? && d.finish < cfg.exp(j)
            && s.core.log[w].at + Max(0, cfg.opts.cacheTtl) <= d.start
  {
    var looked := RaceLookup(cfg, s0, i, j);
    var s1 := Exec(cfg, s0, looked);
    var wrote := RaceWrite(cfg, s1, i, j);
    var s2 := Exec(cfg, s1, wrote);
    ExecAppend(cfg, s0, looked, wrote);
    OneStep(cfg, s2, Put(0));
    ExecAppend(cfg, s0, looked + wrote, [Put(0)]);
    steps, w := looked + wrote + [Put(0)], s2.writers[0].noted;
    ReachableInv(cfg, s0, looked + wrote);
    PutKeepsLog(cfg, s2, 0);
    WriteIsPast(cfg, s2, 0);
  }

  /** A put settles its call and logs nothing. */
  lemma PutKeepsLog(cfg: Config, s: State, c: int)
    requires Enabled(cfg, s, Put(c))
    ensures var b, t := s.core.calls[c], Next(cfg, s, Put(c));
            && t.core.log == s.core.log && c in t.core.calls
            && t.core.calls[c] == T.Done(b.inst, b.key, b.start, b.mark, b.verdict, b.source, s.core.now)
  {}

  lemma WriteIsPast(cfg: Config, s: State, w: int)
    requires Inv(cfg, s) && w in s.writers && s.writers[w].Stored?
    ensures WrittenAt(s, s.writers[w].noted, s.writers[w].jti) && s.core.log[s.writers[w].noted].at <= s.core.now
  {}

  // ---- the size of a cache -------------------------------------------------------------

  /** This step stores a verdict a check on instance `i` fetched. */
  predicate StoresOn(cfg: Config, s: State, step: Step, i: int)
    requires Enabled(cfg, s, step)
  {
    step.Put? && s.core.calls[step.call].inst == i && Cacheable(cfg.opts, s.core.calls[step.call].verdict)
  }

  /** Seeds on instance `i` since its last such step; `n` of them before this run began. */
  function SeedsSince(cfg: Config, s: State, steps: seq<Step>, i: int, n: nat): nat
    requires Valid(cfg, s, steps)
    decreases |steps|
  {
    if steps == [] then n
    else
      var m := if StoresOn(cfg, s, steps[0], i) then 0
               else if steps[0].Seed? && s.writers[steps[0].writer].inst == i then n + 1 else n;
      SeedsSince(cfg, Next(cfg, s, steps[0]), steps[1..], i, m)
  }

  /** A put that stores leaves at most one entry more than the bound, however it was interleaved. */
  lemma PutBound(cfg: Config, s: State, step: Step, i: int)
    requires Enabled(cfg, s, step) && StoresOn(cfg, s, step, i)
    ensures |T.CacheOf(Next(cfg, s, step).core, i)| <= cfg.opts.maxEntries + 1
  {
    var b := s.core.calls[step.call];
    var kept := MakeRoom(cfg.opts, T.CacheOf(s.core, i), b.start);
    var e := T.Entry(b.verdict, b.start + cfg.opts.cacheTtl);
    MakeRoomShrinks(cfg.opts, T.CacheOf(s.core, i), b.start);
    OneMore(kept, b.key, e);
    assert T.CacheOf(Next(cfg, s, step).core, i) == kept[b.key := e];
  }

  lemma SeedGrowth(cfg: Config, s: State, step: Step, i: int)
    requires Enabled(cfg, s, step) && step.Seed?
    ensures |T.CacheOf(Next(cfg, s, step).core, i)|
         <= |T.CacheOf(s.core, i)| + if s.writers[step.writer].inst == i then 1 else 0
  {
    var v := s.writers[step.writer];
    OneMore(T.CacheOf(s.core, i), v.jti, T.Entry(Revoked, s.core.now + cfg.opts.cacheTtl));
  }

  lemma OtherStepsDoNotGrow(cfg: Config, s: State, step: Step, i: int)
    requires Enabled(cfg, s, step) && !StoresOn(cfg, s, step, i) && !step.Seed?
    ensures |T.CacheOf(Next(cfg, s, step).core, i)| <= |T.CacheOf(s.core, i)|
  {
    if step.Put? || step.Clear? {
      assert (step.Clear? && step.inst == i) || T.CacheOf(Next(cfg, s, step).core, i) == T.CacheOf(s.core, i);
    } else {
      Frame(cfg, s, step);
    }
  }

  lemma {:induction false} CacheBoundFrom(cfg: Config, s: State, steps: seq<Step>, i: int, n: nat)
    requires Valid(cfg, s, steps) && |T.CacheOf(s.core, i)| <= cfg.opts.maxEntries + 1 + n
    ensures |T.CacheOf(Exec(cfg, s, steps).core, i)| <= cfg.opts.maxEntries + 1 + SeedsSince(cfg, s, steps, i, n)
    decreases |steps|
  {
    if steps == [] {
    } else {
      var step := steps[0];
      var m := if StoresOn(cfg, s, step, i) then 0
               else if step.Seed? && s.writers[step.writer].inst == i then n + 1 else n;
      if StoresOn(cfg, s, step, i) {
        PutBound(cfg, s, step, i);
      } else if step.Seed? {
        SeedGrowth(cfg, s, step, i);
      } else {
        OtherStepsDoNotGrow(cfg, s, step, i);
      }
      CacheBoundFrom(cfg, Next(cfg, s, step), steps[1..], i, m);
    }
  }

  /**
    In every run, however many misses are in flight and whenever their puts land, the cache of each
    instance exceeds its bound by at most one entry and the sign-outs it seeded since its last
    stored answer.
  */
  lemma CacheBound(cfg: Config, s0: State, steps: seq<Step>, i: int)
    requires Initial(s0) && Valid(cfg, s0, steps)
    ensures |T.CacheOf(Exec(cfg, s0, steps).core, i)| <= cfg.opts.maxEntries + 1 + SeedsSince(cfg, s0, steps, i, 0)
  {
    CacheBoundFrom(cfg, s0, steps, i, 0);
  }

  // ---- the class, as a run of steps ------------------------------------------------------

  /** One check with nothing in between but time: what the class method does in one call. */
  function MissAlone(cfg: Config, s: State, c: int, i: int, j: string, wait: nat, reachable: bool): State
    requires c !in s.core.calls && j != "" && !T.Hits(T.CacheOf(s.core, i), j, s.core.now)
  {
    var s1 := Next(cfg, s, Begin(c, i, j));
    Next(cfg, Next(cfg, Next(cfg, s1, Probe(c)), Tick(wait)), Lookup(c, reachable))
  }

  lemma MissIsCore(cfg: Config, s: State, c: int, i: int, j: string, wait: nat, reachable: bool)
    requires c !in s.core.calls && j != "" && !T.Hits(T.CacheOf(s.core, i), j, s.core.now)
    ensures var answer := StoreReply(s.store, j, s.core.now + wait, reachable);
            MissAlone(cfg, s, c, i, j, wait, reachable)
            == s.(core := T.Missing(Life(cfg.opts), s.core, c, i, j, wait, answer))
  {}

  function CheckAlone(cfg: Config, s: State, c: int, i: int, j: string, wait: nat, reachable: bool): State
    requires c !in s.core.calls && j != ""
  {
    if T.Hits(T.CacheOf(s.core, i), j, s.core.now) then Next(cfg, Next(cfg, s, Begin(c, i, j)), Probe(c))
    else
      MissIsCore(cfg, s, c, i, j, wait, reachable);
      Next(cfg, MissAlone(cfg, s, c, i, j, wait, reachable), Put(c))
  }

  lemma CheckIsCore(cfg: Config, s: State, c: int, i: int, j: string, wait: nat, reachable: bool)
    requires c !in s.core.calls && j != ""
    ensures var answer := StoreReply(s.store, j, s.core.now + wait, reachable);
            var kept := MakeRoom(cfg.opts, T.CacheOf(s.core, i), s.core.now);
            && T.Submap(kept, T.CacheOf(s.core, i))
            && CheckAlone(cfg, s, c, i, j, wait, reachable)
               == s.(core := T.Alone(Life(cfg.opts), s.core, c, i, j, wait, answer, kept))
  {
    MakeRoomShrinks(cfg.opts, T.CacheOf(s.core, i), s.core.now);
    if !T.Hits(T.CacheOf(s.core, i), j, s.core.now) {
      var answer := StoreReply(s.store, j, s.core.now + wait, reachable);
      MissIsCore(cfg, s, c, i, j, wait, reachable);
      T.MissingState(Life(cfg.opts), s.core, c, i, j, wait, answer);
    }
  }

  /** The class's check is one look-aside call. */
  lemma CheckIsLookAside(opts: Options, cache: Cache, j: string, now: int, answer: Revocation)
    requires opts.enabled && j != ""
    ensures CheckVerdict(opts, cache, j, now, answer) == T.Verdict(cache, j, now, answer)
    ensures CheckCache(opts, cache, j, now, answer)
         == T.CacheAfter(Life(opts), cache, MakeRoom(opts, cache, now), j, now, answer)
  {}

  /** `t` is what a check of `j` on `i`, made alone in `s` and answered `answer`, leaves. */
  ghost predicate Checked(opts: Options, s: State, t: State, c: int, i: int, j: string, answer: Revocation) {
    && c in t.core.calls && t.core.calls[c].Done? && t.store == s.store
    && t.core.calls[c].verdict == CheckVerdict(opts, T.CacheOf(s.core, i), j, s.core.now, answer)
    && T.CacheOf(t.core, i) == CheckCache(opts, T.CacheOf(s.core, i), j, s.core.now, answer)
    && (forall other :: other != i ==> T.CacheOf(t.core, other) == T.CacheOf(s.core, other))
  }

  lemma AloneIsChecked(cfg: Config, s: State, c: int, i: int, j: string, wait: nat, answer: Revocation)
    requires c !in s.core.calls && j != "" && cfg.opts.enabled
    requires T.Submap(MakeRoom(cfg.opts, T.CacheOf(s.core, i), s.core.now), T.CacheOf(s.core, i))
    ensures var kept := MakeRoom(cfg.opts, T.CacheOf(s.core, i), s.core.now);
            var t := s.(core := T.Alone(Life(cfg.opts), s.core, c, i, j, wait, answer, kept));
            Checked(cfg.opts, s, t, c, i, j, answer)
  {
    var cache := T.CacheOf(s.core, i);
    T.AloneIsCall(Life(cfg.opts), s.core, c, i, j, wait, answer, MakeRoom(cfg.opts, cache, s.core.now));
    CheckIsLookAside(cfg.opts, cache, j, s.core.now, answer);
  }

  /** Uninterleaved, the steps of a check give exactly the class's verdict and leave exactly its cache. */
  lemma CheckIsSteps(cfg: Config, s: State, c: int, i: int, j: string, wait: nat, reachable: bool)
    requires c !in s.core.calls && j != "" && cfg.opts.enabled
    ensures Checked(cfg.opts, s, CheckAlone(cfg, s, c, i, j, wait, reachable), c, i, j,
                    StoreReply(s.store, j, s.core.now + wait, reachable))
  {
    CheckIsCore(cfg, s, c, i, j, wait, reachable);
    AloneIsChecked(cfg, s, c, i, j, wait, StoreReply(s.store, j, s.core.now + wait, reachable));
  }

  /** One sign-out with nothing in between but time, up to its store write. */
  function WriteAlone(cfg: Config, s: State, w: int, i: int, j: string, wait: nat, reachable: bool): State
    requires w !in s.writers && j != "" && s.core.now < cfg.exp(j)
  {
    Next(cfg, Next(cfg, Next(cfg, s, BeginRevoke(w, i, j)), Tick(wait)), Write(w, reachable))
  }

  lemma WriteAloneGives(cfg: Config, s: State, w: int, i: int, j: string, wait: nat, reachable: bool)
    requires w !in s.writers && j != "" && s.core.now < cfg.exp(j)
    ensures var t := WriteAlone(cfg, s, w, i, j, wait, reachable);
            && t.core.caches == s.core.caches && t.core.now == s.core.now + wait
            && t.store == (if reachable then s.store[j := s.core.now + wait + (cfg.exp(j) - s.core.now)] else s.store)
            && t.writers == s.writers[w := if reachable then Stored(i, j, |s.core.log|) else Finished]
  {}

  lemma SeedGives(cfg: Config, s: State, w: int, wait: nat)
    requires w in s.writers && s.writers[w].Stored?
    ensures var v := s.writers[w];
            var t := Next(cfg, Next(cfg, s, Tick(wait)), Seed(w));
            && t.store == s.store
            && t.core.caches == (if cfg.opts.cacheTtl <= 0 then s.core.caches else
                 var e := T.Entry(Revoked, s.core.now + wait + cfg.opts.cacheTtl);
                 s.core.caches[v.inst := T.CacheOf(s.core, v.inst)[v.jti := e]])
  {}

  /** `t` is what the class's revoke, its write landing at `at` and its seed at `now`, makes of `s`. */
  ghost predicate SignedOut(
      opts: Options, s: State, t: State, i: int, j: string, ttl: int, stored: bool, at: int, now: int)
  {
    && t.store == (if Writes(opts, j, ttl, stored) then s.store[j := at + ttl] else s.store)
    && T.CacheOf(t.core, i) == RevokeCache(opts, T.CacheOf(s.core, i), j, ttl, stored, now)
    && (forall other :: other != i ==> T.CacheOf(t.core, other) == T.CacheOf(s.core, other))
  }

  lemma EffectIsRevoke(opts: Options, s: State, t: State, i: int, j: string, ttl: int, stored: bool, at: int, now: int)
    requires opts.enabled && j != "" && ttl > 0
    requires t.store == if stored then s.store[j := at + ttl] else s.store
    requires t.core.caches == if !stored || opts.cacheTtl <= 0 then s.core.caches
                              else s.core.caches[i := T.CacheOf(s.core, i)[j := T.Entry(Revoked, now + opts.cacheTtl)]]
    ensures SignedOut(opts, s, t, i, j, ttl, stored, at, now)
  {}

  /** Uninterleaved, a sign-out whose write fails leaves exactly the class's store and cache. */
  lemma FailedRevokeIsSteps(cfg: Config, s: State, w: int, i: int, j: string, wait: nat, now: int)
    requires w !in s.writers && j != "" && s.core.now < cfg.exp(j) && cfg.opts.enabled
    ensures SignedOut(cfg.opts, s, WriteAlone(cfg, s, w, i, j, wait, false), i, j,
                      cfg.exp(j) - s.core.now, false, s.core.now + wait, now)
  {
    var ttl := cfg.exp(j) - s.core.now;
    var t := WriteAlone(cfg, s, w, i, j, wait, false);
    WriteAloneGives(cfg, s, w, i, j, wait, false);
    EffectIsRevoke(cfg.opts, s, t, i, j, ttl, false, s.core.now + wait, now);
  }

  lemma SeedIsRevoke(cfg: Config, s: State, s1: State, w: int, i: int, j: string, ttl: int, at: int, wait: nat)
    requires cfg.opts.enabled && j != "" && ttl > 0 && w in s1.writers && s1.writers[w].Stored?
    requires s1.writers[w].inst == i && s1.writers[w].jti == j
    requires s1.store == s.store[j := at + ttl] && s1.core.caches == s.core.caches
    ensures SignedOut(cfg.opts, s, Next(cfg, Next(cfg, s1, Tick(wait)), Seed(w)), i, j,
                      ttl, true, at, s1.core.now + wait)
  {
    var t := Next(cfg, Next(cfg, s1, Tick(wait)), Seed(w));
    SeedGives(cfg, s1, w, wait);
    EffectIsRevoke(cfg.opts, s, t, i, j, ttl, true, at, s1.core.now + wait);
  }

  /** Uninterleaved, the steps of a sign-out leave exactly the class's store and cache. */
  lemma RevokeIsSteps(cfg: Config, s: State, w: int, i: int, j: string, wait: nat, wait': nat)
    requires w !in s.writers && j != "" && s.core.now < cfg.exp(j) && cfg.opts.enabled
    ensures var s1 := WriteAlone(cfg, s, w, i, j, wait, true);
            && Enabled(cfg, Next(cfg, s1, Tick(wait')), Seed(w))
            && SignedOut(cfg.opts, s, Next(cfg, Next(cfg, s1, Tick(wait')), Seed(w)), i, j,
                         cfg.exp(j) - s.core.now, true, s.core.now + wait, s.core.now + wait + wait')
  {
    WriteAloneGives(cfg, s, w, i, j, wait, true);
    SeedIsRevoke(cfg, s, WriteAlone(cfg, s, w, i, j, wait, true), w, i, j,
                 cfg.exp(j) - s.core.now, s.core.now + wait, wait');
  }
}
