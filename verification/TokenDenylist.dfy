/**
  The revoked-token denylist of one bridge instance: the verdict cache, its pruning, and the
  fail-closed policy. The shared store is the ghost field `store`, which maps a revoked jti
  to the instant its entry expires by itself. Clock readings and what the store replied
  arrive as parameters.
*/
module TokenDenylist {
  import opened TtlCache

  datatype Revocation = Allowed | Revoked | Unknown

  datatype Options = Options(enabled: bool, cacheTtl: int, failOpen: bool, maxEntries: nat)

  type Cache = map<string, Entry<Revocation>>

  // ---- what the operations compute ----------------------------------------------

  /** The entries pruning keeps: those still trusted after `now`. */
  function Live(cache: Cache, now: int): Cache {
    map j | j in cache && cache[j].until > now :: cache[j]
  }

  function Pruned(opts: Options, cache: Cache, now: int): Cache {
    var live := Live(cache, now);
    if |live| > opts.maxEntries then map[] else live
  }

  function MakeRoom(opts: Options, cache: Cache, now: int): Cache {
    if |cache| >= opts.maxEntries then Pruned(opts, cache, now) else cache
  }

  predicate Cacheable(opts: Options, v: Revocation) {
    !v.Unknown? && opts.cacheTtl > 0
  }

  function CachePut(opts: Options, cache: Cache, jti: string, v: Revocation, now: int): Cache {
    if Cacheable(opts, v) then MakeRoom(opts, cache, now)[jti := Entry(v, now + opts.cacheTtl)] else cache
  }

  predicate Exempt(opts: Options, jti: string) {
    !opts.enabled || jti == ""
  }

  function CheckVerdict(opts: Options, cache: Cache, jti: string, now: int, answer: Revocation): Revocation {
    if Exempt(opts, jti) then Allowed else if Hits(cache, jti, now) then cache[jti].verdict else answer
  }

  function CheckCache(opts: Options, cache: Cache, jti: string, now: int, answer: Revocation): Cache {
    if Exempt(opts, jti) || Hits(cache, jti, now) then cache else CachePut(opts, cache, jti, answer, now)
  }

  function Policy(opts: Options, v: Revocation): bool {
    match v case Allowed => true case Revoked => false case Unknown => opts.failOpen
  }

  /** A fail-closed bridge permits on Allowed only, a fail-open one on everything but Revoked. */
  lemma PolicyIff(opts: Options, v: Revocation)
    ensures !opts.failOpen ==> (Policy(opts, v) <==> v == Allowed)
    ensures opts.failOpen ==> (Policy(opts, v) <==> v != Revoked)
  {}

  /** Pruning keeps exactly the entries a check could still hit, unless even those are too many. */
  lemma PruneKeepsHits(opts: Options, cache: Cache, now: int, hits: set<string>)
    requires forall j :: j in hits <==> Hits(cache, j, now)
    ensures |hits| <= opts.maxEntries ==>
              Pruned(opts, cache, now).Keys == hits && forall j :: j in hits ==> Pruned(opts, cache, now)[j] == cache[j]
    ensures |hits| > opts.maxEntries ==> Pruned(opts, cache, now) == map[]
  {
    assert Live(cache, now).Keys == hits;
    assert |Live(cache, now).Keys| == |Live(cache, now)|;
  }

  /** The store write and the cache seed happen only for a named, unexpired token. */
  predicate Writes(opts: Options, jti: string, ttl: int, stored: bool) {
    opts.enabled && jti != "" && ttl > 0 && stored
  }

  function RevokeCache(opts: Options, cache: Cache, jti: string, ttl: int, stored: bool, now: int): Cache {
    if Writes(opts, jti, ttl, stored) && opts.cacheTtl > 0 then cache[jti := Entry(Revoked, now + opts.cacheTtl)]
    else cache
  }

  // ---- the store -----------------------------------------------------------------

  predicate InStore(store: map<string, int>, jti: string, now: int) {
    jti in store && now < store[jti]
  }

  /** What a lookup at `now` reports: presence is the whole signal, and a failure is Unknown. */
  function StoreReply(store: map<string, int>, jti: string, now: int, reachable: bool): Revocation {
    if !reachable then Unknown else if InStore(store, jti, now) then Revoked else Allowed
  }

  // ---- the class -----------------------------------------------------------------

  class Denylist {
    const opts: Options
    var cache: Cache
    ghost var store: map<string, int>
    ghost var clock: int    // the latest instant any call has seen

    /**
      Used by one caller at a time: nothing cached vouches for a token whose store entry is
      still live, and Unknown is never cached.
    */
    ghost predicate Valid()
      reads this
    {
      && (opts.cacheTtl <= 0 ==> cache == map[])
      && (forall j :: j in cache ==> !cache[j].verdict.Unknown?)
      && (forall j :: j in cache && cache[j].verdict.Allowed? ==> !InStore(store, j, clock))
    }

    constructor (options: Options, now: int)
      ensures Valid() && opts == options && cache == map[] && store == map[] && clock == now
    {
      opts, cache, store, clock := options, map[], map[], now;
    }

    method PruneLocked(now: int)
      modifies this`cache
      ensures cache == Pruned(opts, old(cache), now)
    {
      var todo := cache.Keys;
      while todo != {}
        invariant todo <= cache.Keys
        invariant Live(cache, now) == Live(old(cache), now)
        invariant forall j :: j in cache && j !in todo ==> cache[j].until > now
        invariant forall j :: j in cache ==> j in old(cache) && cache[j] == old(cache)[j]
        decreases todo
      {
        var j :| j in todo;
        todo := todo - {j};
        if cache[j].until <= now { cache := cache - {j}; }
      }
      assert cache == Live(cache, now);
      if |cache| > opts.maxEntries { cache := map[]; }
    }

    method CachePutLocked(jti: string, v: Revocation, now: int)
      modifies this`cache
      ensures cache == CachePut(opts, old(cache), jti, v, now)
    {
      if v == Unknown || opts.cacheTtl <= 0 { return; }
      if |cache| >= opts.maxEntries { PruneLocked(now); }
      cache := cache[jti := Entry(v, now + opts.cacheTtl)];
    }

    /**
      `now` is the call's one clock reading and `answer` what the lookup at the later instant
      `at` returned. Until a revoked token's entry expires the verdict is never Allowed.
    */
    method Check(jti: string, now: int, ghost at: int, answer: Revocation) returns (v: Revocation)
      requires Valid() && clock <= now <= at
      requires answer == StoreReply(store, jti, at, true) || answer.Unknown?
      modifies this`cache, this`clock
      ensures Valid() && clock == at
      ensures v == CheckVerdict(opts, old(cache), jti, now, answer)
      ensures cache == CheckCache(opts, old(cache), jti, now, answer)
      ensures v.Allowed? && !Exempt(opts, jti) ==> !InStore(store, jti, at)
      ensures v.Unknown? ==> answer.Unknown?
      ensures !opts.enabled || jti == "" ==> v.Allowed? && cache == old(cache)
    {
      clock := at;
      if !opts.enabled || jti == "" { return Allowed; }
      if jti in cache && cache[jti].until > now { return cache[jti].verdict; }
      CachePutLocked(jti, answer, now);
      return answer;
    }

    method Permits(jti: string, now: int, ghost at: int, answer: Revocation) returns (ok: bool)
      requires Valid() && clock <= now <= at
      requires answer == StoreReply(store, jti, at, true) || answer.Unknown?
      modifies this`cache, this`clock
      ensures Valid() && clock == at
      ensures ok == Policy(opts, CheckVerdict(opts, old(cache), jti, now, answer))
      ensures ok && !Exempt(opts, jti) && !opts.failOpen ==> !InStore(store, jti, at)
      ensures Exempt(opts, jti) ==> ok
    {
      var v := Check(jti, now, at, answer);
      ok := match v case Allowed => true case Revoked => false case Unknown => opts.failOpen;
    }

    /**
      The store write lands at `at` when `stored`; the seed reads the clock again, at `now`.
      Reporting success for an enabled denylist means the token is in the store for `ttl`
      seconds or had none left.
    */
    method Revoke(jti: string, ttl: int, stored: bool, ghost at: int, now: int) returns (ok: bool)
      requires Valid() && clock <= at <= now
      modifies this`cache, this`store, this`clock
      ensures Valid() && clock == now
      ensures ok == (!opts.enabled || (jti != "" && (ttl <= 0 || stored)))
      ensures cache == RevokeCache(opts, old(cache), jti, ttl, stored, now)
      ensures store == if Writes(opts, jti, ttl, stored) then old(store)[jti := at + ttl] else old(store)
    {
      clock := now;
      if !opts.enabled { return true; }
      if jti == "" { return false; }
      if ttl <= 0 { return true; }
      if stored {
        store := store[jti := at + ttl];
        if opts.cacheTtl > 0 { cache := cache[jti := Entry(Revoked, now + opts.cacheTtl)]; }
      }
      return stored;
    }

    method ClearCache()
      requires Valid()
      modifies this`cache
      ensures Valid() && cache == map[]
    {
      cache := map[];
    }
  }

  // ---- runs of calls --------------------------------------------------------------

  /**
    One call, made alone. A check reads the clock at `now` and its lookup, if any, answers at `at`; a
    revoke writes the store at `at` and seeds the cache at `now`.
  */
  datatype Op =
    | CheckOp(jti: string, now: int, at: int, answer: Revocation)
    | RevokeOp(jti: string, ttl: int, stored: bool, at: int, now: int)
    | ClearOp

  function Apply(opts: Options, cache: Cache, op: Op): Cache {
    match op
    case CheckOp(j, now, _, a) => CheckCache(opts, cache, j, now, a)
    case RevokeOp(j, ttl, stored, _, now) => RevokeCache(opts, cache, j, ttl, stored, now)
    case ClearOp => map[]
  }

  function Run(opts: Options, ops: seq<Op>): Cache {
    if ops == [] then map[] else Apply(opts, Run(opts, ops[..|ops| - 1]), ops[|ops| - 1])
  }

  predicate Inserts(opts: Options, cache: Cache, op: Op) {
    op.CheckOp? && !Exempt(opts, op.jti) && !Hits(cache, op.jti, op.now) && Cacheable(opts, op.answer)
  }

  lemma OneMore<V>(m: map<string, V>, k: string, v: V)
    ensures |m[k := v]| <= |m| + 1
  {
    assert m[k := v].Keys == m.Keys + {k};
    assert |m[k := v].Keys| == |m[k := v]| && |m.Keys| == |m|;
    if k in m { assert m[k := v].Keys == m.Keys; }
  }

  /** Making room leaves at most the configured number of entries, all of them already there. */
  lemma MakeRoomShrinks(opts: Options, cache: Cache, now: int)
    ensures |MakeRoom(opts, cache, now)| <= opts.maxEntries
    ensures Submap(MakeRoom(opts, cache, now), cache)
  {}

  /** An insertion made by a check leaves at most one entry more than the configured bound. */
  lemma InsertionBound(opts: Options, cache: Cache, op: Op)
    requires Inserts(opts, cache, op)
    ensures |Apply(opts, cache, op)| <= opts.maxEntries + 1
  {
    MakeRoomShrinks(opts, cache, op.now);
    OneMore(MakeRoom(opts, cache, op.now), op.jti, Entry(op.answer, op.now + opts.cacheTtl));
  }

  // ---- one caller at a time -----------------------------------------------------------

  /** The shared store after a run of this instance. */
  function StoreAfter(opts: Options, ops: seq<Op>): map<string, int> {
    if ops == [] then map[]
    else
      var store, op := StoreAfter(opts, ops[..|ops| - 1]), ops[|ops| - 1];
      if op.RevokeOp? && Writes(opts, op.jti, op.ttl, op.stored) then store[op.jti := op.at + op.ttl] else store
  }

  function Clock(ops: seq<Op>, start: int): int {
    if ops == [] then start
    else
      match ops[|ops| - 1]
      case CheckOp(_, _, at, _) => at
      case RevokeOp(_, _, _, _, now) => now
      case ClearOp => Clock(ops[..|ops| - 1], start)
  }

  /**
    The clock advances, lookups report the store or fail, and a revoke's `ttl` is what the token had
    left when its expiry was read, at or before the write: so the entry lasts at least to `exp`.
  */
  predicate Sequential(opts: Options, exp: string -> int, start: int, ops: seq<Op>) {
    ops == [] ||
    var before, op := ops[..|ops| - 1], ops[|ops| - 1];
    && Sequential(opts, exp, start, before)
    && (op.CheckOp? ==>
          && Clock(before, start) <= op.now <= op.at
          && (op.answer.Unknown? || op.answer == StoreReply(StoreAfter(opts, before), op.jti, op.at, true)))
    && (op.RevokeOp? ==> Clock(before, start) <= op.at <= op.now && exp(op.jti) <= op.at + op.ttl)
  }

  ghost predicate NothingVouched(cache: Cache, store: map<string, int>, exp: string -> int, now: int) {
    && (forall j :: j in store ==> exp(j) <= store[j])
    && (forall j :: j in cache && cache[j].verdict.Allowed? ==> !InStore(store, j, now))
  }

  lemma {:induction false} SequentialInv(opts: Options, exp: string -> int, start: int, ops: seq<Op>)
    requires Sequential(opts, exp, start, ops)
    ensures NothingVouched(Run(opts, ops), StoreAfter(opts, ops), exp, Clock(ops, start))
  {
    if ops == [] {
    } else {
      var before, op := ops[..|ops| - 1], ops[|ops| - 1];
      SequentialInv(opts, exp, start, before);
      if op.CheckOp? { MakeRoomShrinks(opts, Run(opts, before), op.now); }
      if op.RevokeOp? && opts.cacheTtl <= 0 { NothingCached(opts, before); }
    }
  }

  lemma {:induction false} NothingCached(opts: Options, ops: seq<Op>)
    requires opts.cacheTtl <= 0
    ensures Run(opts, ops) == map[]
  {
    if ops == [] {
    } else {
      NothingCached(opts, ops[..|ops| - 1]);
    }
  }

  lemma {:induction false} WrittenStays(opts: Options, exp: string -> int, start: int, ops: seq<Op>, w: nat)
    requires Sequential(opts, exp, start, ops) && w < |ops| && ops[w].RevokeOp?
    requires Writes(opts, ops[w].jti, ops[w].ttl, ops[w].stored)
    ensures ops[w].jti in StoreAfter(opts, ops)
  {
    if w == |ops| - 1 {
    } else {
      WrittenStays(opts, exp, start, ops[..|ops| - 1], w);
    }
  }

  /**
    Used by one caller at a time, the serving instance refuses a signed-out token from the very
    next check until the token expires, through any other checks, revokes and cache clears.
  */
  lemma SignOutIsImmediate(opts: Options, exp: string -> int, start: int, ops: seq<Op>, w: nat)
    requires Sequential(opts, exp, start, ops) && w < |ops| - 1 && ops[w].RevokeOp?
    requires Writes(opts, ops[w].jti, ops[w].ttl, ops[w].stored)
    requires var last := ops[|ops| - 1]; last.CheckOp? && last.jti == ops[w].jti && last.at < exp(last.jti)
    ensures var last := ops[|ops| - 1];
            var v := CheckVerdict(opts, Run(opts, ops[..|ops| - 1]), last.jti, last.now, last.answer);
            !v.Allowed? && (!opts.failOpen ==> !Policy(opts, v))
  {
    var before := ops[..|ops| - 1];
    WrittenStays(opts, exp, start, before, w);
    SequentialInv(opts, exp, start, before);
  }
}
