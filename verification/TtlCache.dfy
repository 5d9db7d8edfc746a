/**
  A look-aside verdict cache whose entries carry an expiry, shared by many concurrent calls
  on many instances, as the bridge writes it three times: the revocation check, the
  tenant-state gate and the second-factor requirement.

  A call reads the clock, probes its instance's cache, asks the authority when the probe
  misses and stores the answer. The lock is released between those parts, so each part is a
  step of its own and the steps of different calls interleave freely.

  `life(v)` is how long a verdict `v` may be reused; a non-positive life means it is never
  stored. What is proved here once, for every `life` and every interleaving, is that a
  finished call never returns a verdict the authority did not give recently enough.
*/
module TtlCache {

  datatype Entry<+V> = Entry(verdict: V, until: int)

  /** What happened, in order. The log is history: no step reads it to decide anything. */
  datatype Event<+K, +V, +X> =
    | Answer(key: K, verdict: V, at: int)             // the authority answered a lookup
    | Seed(inst: int, key: K, verdict: V, at: int)    // a writer put a verdict in a cache
    | Note(note: X, at: int)                          // the authority's own state changed

  /** One call in flight. `mark` is the length of the log when the call read the clock. */
  datatype Call<+K, +V> =
    | Begun(inst: int, key: K, start: int, mark: nat)
    | Missed(inst: int, key: K, start: int, mark: nat)
    | Answered(inst: int, key: K, start: int, mark: nat, verdict: V, source: nat)
    | Done(inst: int, key: K, start: int, mark: nat, verdict: V, source: nat, finish: int)

  /**
    `sources` is history as well: for each slot of each cache, the log position of the
    answer or seed its last content came from.
  */
  datatype State<!K(==), V, X> = State(
    now: int,
    caches: map<int, map<K, Entry<V>>>,
    calls: map<int, Call<K, V>>,
    sources: map<(int, K), nat>,
    log: seq<Event<K, V, X>>)

  datatype Step<!K(==), V, X> =
    | Tick(elapsed: nat)
    | Begin(call: int, inst: int, key: K)
    | Probe(call: int)
    | Lookup(call: int, verdict: V)
    | Put(call: int, kept: map<K, Entry<V>>)
    | SeedCache(inst: int, key: K, verdict: V)
    | Evict(inst: int, kept: map<K, Entry<V>>)
    | Remark(note: X)

  function CacheOf<K, V, X>(s: State<K, V, X>, inst: int): map<K, Entry<V>> {
    if inst in s.caches then s.caches[inst] else map[]
  }

  function SourceOf<K, V, X>(s: State<K, V, X>, inst: int, key: K): nat {
    if (inst, key) in s.sources then s.sources[(inst, key)] else 0
  }

  predicate Submap<K, V(==)>(a: map<K, V>, b: map<K, V>) {
    forall k :: k in a ==> k in b && a[k] == b[k]
  }

  /** A step may be taken; evicting may drop any entries but invents none. */
  predicate Enabled<K, V(==), X>(s: State<K, V, X>, step: Step<K, V, X>) {
    match step
    case Tick(_) => true
    case Begin(c, _, _) => c !in s.calls
    case Probe(c) => c in s.calls && s.calls[c].Begun?
    case Lookup(c, _) => c in s.calls && s.calls[c].Missed?
    case Put(c, kept) => c in s.calls && s.calls[c].Answered? && Submap(kept, CacheOf(s, s.calls[c].inst))
    case SeedCache(_, _, _) => true
    case Evict(i, kept) => Submap(kept, CacheOf(s, i))
    case Remark(_) => true
  }

  function Store<K, V, X>(s: State<K, V, X>, inst: int, kept: map<K, Entry<V>>, key: K, e: Entry<V>, source: nat)
    : State<K, V, X>
  {
    s.(caches := s.caches[inst := kept[key := e]], sources := s.sources[(inst, key) := source])
  }

  /** The effect of one step. A hit must outlive the clock value the call read at its start. */
  function Next<K, V(==), X>(life: V -> int, s: State<K, V, X>, step: Step<K, V, X>): State<K, V, X>
    requires Enabled(s, step)
  {
    match step
    case Tick(d) => s.(now := s.now + d)
    case Begin(c, i, k) => s.(calls := s.calls[c := Begun(i, k, s.now, |s.log|)])
    case Probe(c) =>
      var b := s.calls[c];
      var cache := CacheOf(s, b.inst);
      if b.key in cache && cache[b.key].until > b.start then
        s.(calls := s.calls[c := Done(b.inst, b.key, b.start, b.mark, cache[b.key].verdict,
                                      SourceOf(s, b.inst, b.key), s.now)])
      else
        s.(calls := s.calls[c := Missed(b.inst, b.key, b.start, b.mark)])
    case Lookup(c, v) =>
      var b := s.calls[c];
      s.(calls := s.calls[c := Answered(b.inst, b.key, b.start, b.mark, v, |s.log|)],
         log := s.log + [Answer(b.key, v, s.now)])
    case Put(c, kept) =>
      var b := s.calls[c];
      var done := s.(calls := s.calls[c := Done(b.inst, b.key, b.start, b.mark, b.verdict, b.source, s.now)]);
      if life(b.verdict) > 0 then
        Store(done, b.inst, kept, b.key, Entry(b.verdict, b.start + life(b.verdict)), b.source)
      else
        done
    case SeedCache(i, k, v) =>
      var grown := s.(log := s.log + [Seed(i, k, v, s.now)]);
      if life(v) > 0 then Store(grown, i, CacheOf(s, i), k, Entry(v, s.now + life(v)), |s.log|) else grown
    case Evict(i, kept) => s.(caches := s.caches[i := kept])
    case Remark(x) => s.(log := s.log + [Note(x, s.now)])
  }

  predicate Initial<K, V, X>(s: State<K, V, X>) {
    s.caches == map[] && s.calls == map[] && s.log == []
  }

  // ---- the invariant ----------------------------------------------------------

  /** No event of the log at or after position `n` is earlier than `t`, none before it later. */
  ghost predicate Splits<K, V, X>(log: seq<Event<K, V, X>>, n: nat, t: int) {
    && n <= |log|
    && (forall m :: 0 <= m < n ==> log[m].at <= t)
    && (forall m :: n <= m < |log| ==> t <= log[m].at)
  }

  ghost predicate LogInOrder<K, V, X>(s: State<K, V, X>) {
    && (forall m :: 0 <= m < |s.log| ==> s.log[m].at <= s.now)
    && (forall m :: 0 <= m < |s.log| ==> Splits(s.log, m, s.log[m].at))
  }

  /** Log position `m` holds an answer to, or a seed of, verdict `v` for key `k`. */
  ghost predicate Gives<K, V, X>(s: State<K, V, X>, m: nat, k: K, v: V) {
    m < |s.log| && !s.log[m].Note? && s.log[m].key == k && s.log[m].verdict == v
  }

  ghost predicate SlotSound<K, V, X>(life: V -> int, s: State<K, V, X>, i: int, k: K)
    requires i in s.caches && k in s.caches[i]
  {
    var e := s.caches[i][k];
    && (i, k) in s.sources
    && var m := s.sources[(i, k)];
    && Gives(s, m, k, e.verdict)
    && life(e.verdict) > 0
    && e.until <= s.log[m].at + life(e.verdict)
  }

  ghost predicate CachesSound<K, V, X>(life: V -> int, s: State<K, V, X>) {
    forall i, k :: i in s.caches && k in s.caches[i] ==> SlotSound(life, s, i, k)
  }

  /** The verdict came from the call's own lookup. */
  ghost predicate OwnAnswer<K, V, X>(s: State<K, V, X>, c: Call<K, V>)
    requires c.Answered? || c.Done?
  {
    c.mark <= c.source < |s.log| && s.log[c.source].Answer?
  }

  /** The verdict was reused, and its origin is younger than its life at the call's start. */
  ghost predicate Reused<K, V, X>(life: V -> int, s: State<K, V, X>, c: Call<K, V>)
    requires c.Done?
  {
    c.source < |s.log| && life(c.verdict) > 0 && s.log[c.source].at + life(c.verdict) > c.start
  }

  ghost predicate CallSound<K, V, X>(life: V -> int, s: State<K, V, X>, c: Call<K, V>) {
    && c.start <= s.now && Splits(s.log, c.mark, c.start)
    && (c.Answered? ==> Gives(s, c.source, c.key, c.verdict) && OwnAnswer(s, c))
    && (c.Done? ==>
          && Gives(s, c.source, c.key, c.verdict)
          && s.log[c.source].at <= c.finish <= s.now
          && (OwnAnswer(s, c) || Reused(life, s, c)))
  }

  ghost predicate Inv<K, V, X>(life: V -> int, s: State<K, V, X>) {
    && LogInOrder(s)
    && CachesSound(life, s)
    && (forall c :: c in s.calls ==> CallSound(life, s, s.calls[c]))
  }

  lemma InitialInv<K, V, X>(life: V -> int, s: State<K, V, X>)
    requires Initial(s)
    ensures Inv(life, s)
  {}

  lemma ProbeKeepsInv<K, V, X>(life: V -> int, s: State<K, V, X>, step: Step<K, V, X>)
    requires Inv(life, s) && Enabled(s, step) && step.Probe?
    ensures Inv(life, Next(life, s, step))
  {
    var b := s.calls[step.call];
    assert CallSound(life, s, b);
    if b.key in CacheOf(s, b.inst) {
      assert SlotSound(life, s, b.inst, b.key);
    }
    var settled := Next(life, s, step).calls[step.call];
    assert CallSound(life, s, settled);
    SettleKeepsInv(life, s, step.call, settled);
    assert Next(life, s, step) == s.(calls := s.calls[step.call := settled]);
  }

  /** Extending the log by one event of the present instant keeps what is already sound. */
  lemma LogGrows<K, V, X>(life: V -> int, s: State<K, V, X>, e: Event<K, V, X>)
    requires Inv(life, s) && e.at == s.now
    ensures Inv(life, s.(log := s.log + [e]))
  {
    var t := s.(log := s.log + [e]);
    forall i, k | i in t.caches && k in t.caches[i] ensures SlotSound(life, t, i, k) {
      assert SlotSound(life, s, i, k);
    }
    forall c | c in t.calls ensures CallSound(life, t, t.calls[c]) {
      assert CallSound(life, s, s.calls[c]);
    }
  }

  lemma StoreKeepsInv<K, V, X>(
      life: V -> int, s: State<K, V, X>, inst: int, kept: map<K, Entry<V>>, key: K, e: Entry<V>, source: nat)
    requires Inv(life, s) && Submap(kept, CacheOf(s, inst))
    requires Gives(s, source, key, e.verdict) && life(e.verdict) > 0
    requires e.until <= s.log[source].at + life(e.verdict)
    ensures Inv(life, Store(s, inst, kept, key, e, source))
  {
    var t := Store(s, inst, kept, key, e, source);
    forall i, k | i in t.caches && k in t.caches[i] ensures SlotSound(life, t, i, k) {
      if i == inst && k == key {
      } else {
        assert i in s.caches && k in s.caches[i] && t.caches[i][k] == s.caches[i][k];
        assert SlotSound(life, s, i, k);
      }
    }
    forall c | c in t.calls ensures CallSound(life, t, t.calls[c]) {
      assert CallSound(life, s, s.calls[c]);
    }
  }

  lemma SettleKeepsInv<K, V, X>(life: V -> int, s: State<K, V, X>, c: int, b: Call<K, V>)
    requires Inv(life, s) && CallSound(life, s, b)
    ensures Inv(life, s.(calls := s.calls[c := b]))
  {
    var t := s.(calls := s.calls[c := b]);
    forall i, k | i in t.caches && k in t.caches[i] ensures SlotSound(life, t, i, k) {
      assert SlotSound(life, s, i, k);
    }
    forall d | d in t.calls ensures CallSound(life, t, t.calls[d]) {
      if d != c { assert CallSound(life, s, s.calls[d]); } else { assert CallSound(life, s, b); }
    }
  }

  lemma LookupKeepsInv<K, V, X>(life: V -> int, s: State<K, V, X>, c: int, v: V)
    requires Inv(life, s) && Enabled(s, Lookup(c, v))
    ensures Inv(life, Next(life, s, Lookup(c, v)))
  {
    var b := s.calls[c];
    assert CallSound(life, s, b);
    var e := Answer(b.key, v, s.now);
    LogGrows(life, s, e);
    var grown := s.(log := s.log + [e]);
    assert CallSound(life, grown, b);
    SettleKeepsInv(life, grown, c, Answered(b.inst, b.key, b.start, b.mark, v, |s.log|));
  }

  lemma PutKeepsInv<K, V, X>(life: V -> int, s: State<K, V, X>, c: int, kept: map<K, Entry<V>>)
    requires Inv(life, s) && Enabled(s, Put(c, kept))
    ensures Inv(life, Next(life, s, Put(c, kept)))
  {
    var b := s.calls[c];
    assert CallSound(life, s, b);
    var d := Done(b.inst, b.key, b.start, b.mark, b.verdict, b.source, s.now);
    SettleKeepsInv(life, s, c, d);
    var done := s.(calls := s.calls[c := d]);
    if life(b.verdict) > 0 {
      assert CacheOf(done, b.inst) == CacheOf(s, b.inst);
      assert Gives(done, b.source, b.key, b.verdict);
      var e := Entry(b.verdict, b.start + life(b.verdict));
      StoreKeepsInv(life, done, b.inst, kept, b.key, e, b.source);
      assert Next(life, s, Put(c, kept)) == Store(done, b.inst, kept, b.key, e, b.source);
    }
  }

  lemma SeedKeepsInv<K, V, X>(life: V -> int, s: State<K, V, X>, i: int, k: K, v: V)
    requires Inv(life, s)
    ensures Inv(life, Next(life, s, SeedCache(i, k, v)))
  {
    LogGrows(life, s, Seed(i, k, v, s.now));
    var grown := s.(log := s.log + [Seed(i, k, v, s.now)]);
    if life(v) > 0 {
      assert CacheOf(grown, i) == CacheOf(s, i);
      assert grown.log[|s.log|] == Seed(i, k, v, s.now);
      assert Gives(grown, |s.log|, k, v);
      var e := Entry(v, s.now + life(v));
      StoreKeepsInv(life, grown, i, CacheOf(s, i), k, e, |s.log|);
      assert Next(life, s, SeedCache(i, k, v)) == Store(grown, i, CacheOf(s, i), k, e, |s.log|);
    }
  }

  /** Time passing and evicting touch neither the log nor any call. */
  lemma QuietKeepsInv<K, V, X>(life: V -> int, s: State<K, V, X>, step: Step<K, V, X>)
    requires Inv(life, s) && Enabled(s, step) && (step.Tick? || step.Evict?)
    ensures Inv(life, Next(life, s, step))
  {
    var t := Next(life, s, step);
    forall i, k | i in t.caches && k in t.caches[i] ensures SlotSound(life, t, i, k) {
      assert i in s.caches && k in s.caches[i] && t.caches[i][k] == s.caches[i][k];
      assert SlotSound(life, s, i, k);
    }
    forall c | c in t.calls ensures CallSound(life, t, t.calls[c]) {
      assert CallSound(life, s, s.calls[c]);
    }
  }

  /** Every step keeps the invariant, whatever is evicted and whatever `life` is. */
  lemma NextKeepsInv<K, V, X>(life: V -> int, s: State<K, V, X>, step: Step<K, V, X>)
    requires Inv(life, s) && Enabled(s, step)
    ensures Inv(life, Next(life, s, step))
  {
    match step
    case Tick(_) => QuietKeepsInv(life, s, step);
    case Begin(c, i, k) => SettleKeepsInv(life, s, c, Begun(i, k, s.now, |s.log|));
    case Probe(_) => ProbeKeepsInv(life, s, step);
    case Lookup(c, v) => LookupKeepsInv(life, s, c, v);
    case Put(c, kept) => PutKeepsInv(life, s, c, kept);
    case SeedCache(i, k, v) => SeedKeepsInv(life, s, i, k, v);
    case Evict(_, _) => QuietKeepsInv(life, s, step);
    case Remark(x) => LogGrows(life, s, Note(x, s.now));
  }

  // ---- the freshness theorem --------------------------------------------------

  /**
    A finished call's verdict was given for its key at an instant `at` that is not later than
    its finish and either not earlier than its start or less than one life before it. A
    verdict with no life is always the call's own answer.
  */
  lemma DoneIsFresh<K, V, X>(life: V -> int, s: State<K, V, X>, c: int)
    requires Inv(life, s) && c in s.calls && s.calls[c].Done?
    ensures var d := s.calls[c];
            && Gives(s, d.source, d.key, d.verdict)
            && s.log[d.source].at <= d.finish
            && (d.start <= s.log[d.source].at || s.log[d.source].at + life(d.verdict) > d.start)
            && (life(d.verdict) <= 0 ==> d.mark <= d.source && s.log[d.source].Answer?)
  {
    assert CallSound(life, s, s.calls[c]);
  }

  /**
    A call that begins one life or more after an event (and, in the same second, after it in
    order) returns a verdict given after that event.
  */
  lemma VerdictFollowsEvent<K, V, X>(life: V -> int, s: State<K, V, X>, c: int, w: nat)
    requires Inv(life, s) && c in s.calls && s.calls[c].Done?
    requires w < |s.log|
    requires w < s.calls[c].mark || s.log[w].at < s.calls[c].start
    requires s.log[w].at + life(s.calls[c].verdict) <= s.calls[c].start
    ensures w < s.calls[c].source
  {
    assert CallSound(life, s, s.calls[c]);
  }

  // ---- whole runs --------------------------------------------------------------

  predicate Valid<K, V(==), X>(life: V -> int, s: State<K, V, X>, steps: seq<Step<K, V, X>>)
    decreases |steps|
  {
    steps == [] || (Enabled(s, steps[0]) && Valid(life, Next(life, s, steps[0]), steps[1..]))
  }

  function Exec<K, V(==), X>(life: V -> int, s: State<K, V, X>, steps: seq<Step<K, V, X>>): State<K, V, X>
    requires Valid(life, s, steps)
    decreases |steps|
  {
    if steps == [] then s else Exec(life, Next(life, s, steps[0]), steps[1..])
  }

  /** The invariant holds after any interleaving of steps. */
  lemma {:induction false} ExecKeepsInv<K, V, X>(life: V -> int, s: State<K, V, X>, steps: seq<Step<K, V, X>>)
    requires Inv(life, s) && Valid(life, s, steps)
    ensures Inv(life, Exec(life, s, steps))
    decreases |steps|
  {
    if steps == [] {
    } else {
      NextKeepsInv(life, s, steps[0]);
      ExecKeepsInv(life, Next(life, s, steps[0]), steps[1..]);
    }
  }

  // ---- one call alone ----------------------------------------------------------

  predicate Hits<K, V>(cache: map<K, Entry<V>>, k: K, now: int) {
    k in cache && cache[k].until > now
  }

  /** The verdict of a call nobody interferes with, `v` being what a lookup would answer. */
  function Verdict<K, V>(cache: map<K, Entry<V>>, k: K, now: int, v: V): V {
    if Hits(cache, k, now) then cache[k].verdict else v
  }

  /** The cache it leaves, `kept` being what making room leaves of the old one. */
  function CacheAfter<K, V>(
      life: V -> int, cache: map<K, Entry<V>>, kept: map<K, Entry<V>>, k: K, now: int, v: V): map<K, Entry<V>>
  {
    if Hits(cache, k, now) || life(v) <= 0 then cache else kept[k := Entry(v, now + life(v))]
  }

  /** The steps of a call with nothing in between but time. */
  function Missing<K, V(==), X>(
      life: V -> int, s: State<K, V, X>, c: int, i: int, k: K, wait: nat, v: V): (t: State<K, V, X>)
    requires c !in s.calls && !Hits(CacheOf(s, i), k, s.now)
    ensures c in t.calls && t.calls[c].Answered? && t.calls[c].inst == i && t.caches == s.caches
  {
    var s1 := Next(life, s, Begin(c, i, k));
    Next(life, Next(life, Next(life, s1, Probe(c)), Tick(wait)), Lookup(c, v))
  }

  function Alone<K, V(==), X>(
      life: V -> int, s: State<K, V, X>, c: int, i: int, k: K, wait: nat, v: V, kept: map<K, Entry<V>>)
    : State<K, V, X>
    requires c !in s.calls && Submap(kept, CacheOf(s, i))
  {
    if Hits(CacheOf(s, i), k, s.now) then Next(life, Next(life, s, Begin(c, i, k)), Probe(c))
    else Next(life, Missing(life, s, c, i, k, wait, v), Put(c, kept))
  }

  lemma MissingState<K, V, X>(life: V -> int, s: State<K, V, X>, c: int, i: int, k: K, wait: nat, v: V)
    requires c !in s.calls && !Hits(CacheOf(s, i), k, s.now)
    ensures Missing(life, s, c, i, k, wait, v).calls[c] == Answered(i, k, s.now, |s.log|, v, |s.log|)
  {}

  /** What one put does to the caches. */
  lemma PutGives<K, V, X>(life: V -> int, s: State<K, V, X>, c: int, kept: map<K, Entry<V>>)
    requires Enabled(s, Put(c, kept))
    ensures var b := s.calls[c];
            var t := Next(life, s, Put(c, kept));
            && c in t.calls && t.calls[c].Done? && t.calls[c].verdict == b.verdict
            && (life(b.verdict) <= 0 ==> t.caches == s.caches)
            && (life(b.verdict) > 0 ==>
                  t.caches == s.caches[b.inst := kept[b.key := Entry(b.verdict, b.start + life(b.verdict))]])
  {}

  lemma HitGives<K, V, X>(life: V -> int, s: State<K, V, X>, c: int, i: int, k: K)
    requires c !in s.calls && Hits(CacheOf(s, i), k, s.now)
    ensures var t := Next(life, Next(life, s, Begin(c, i, k)), Probe(c));
            && c in t.calls && t.calls[c].Done? && t.calls[c].verdict == CacheOf(s, i)[k].verdict
            && t.caches == s.caches
  {}

  /** Uninterleaved, the steps answer and store what one look-aside call would. */
  lemma AloneIsCall<K, V, X>(
      life: V -> int, s: State<K, V, X>, c: int, i: int, k: K, wait: nat, v: V, kept: map<K, Entry<V>>)
    requires c !in s.calls && Submap(kept, CacheOf(s, i))
    ensures var t := Alone(life, s, c, i, k, wait, v, kept);
            && c in t.calls && t.calls[c].Done?
            && t.calls[c].verdict == Verdict(CacheOf(s, i), k, s.now, v)
            && CacheOf(t, i) == CacheAfter(life, CacheOf(s, i), kept, k, s.now, v)
            && (forall other :: other != i ==> CacheOf(t, other) == CacheOf(s, other))
  {
    if Hits(CacheOf(s, i), k, s.now) {
      HitGives(life, s, c, i, k);
    } else {
      MissingState(life, s, c, i, k, wait, v);
      PutGives(life, Missing(life, s, c, i, k, wait, v), c, kept);
    }
  }
}
