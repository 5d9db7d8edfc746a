/**
  The in-memory single-use guard behind hand-off codes and integration assertions. Each call
  first purges every record that has expired by the caller's clock reading, then refuses a
  jti that still has a record.
*/
module ReplayGuard {

  type Seen = map<string, int>

  function Purged(seen: Seen, now: int): Seen {
    map j | j in seen && seen[j] > now :: seen[j]
  }

  predicate Accepts(seen: Seen, jti: string, now: int) {
    jti == "" || !(jti in seen && seen[jti] > now)
  }

  function AcceptSeen(seen: Seen, jti: string, exp: int, now: int): Seen {
    if jti == "" then seen
    else if Accepts(seen, jti, now) then Purged(seen, now)[jti := exp]
    else Purged(seen, now)
  }

  class Guard {
    var seen: Seen

    constructor ()
      ensures seen == map[]
    { seen := map[]; }

    method PurgeLocked(now: int)
      modifies this
      ensures seen == Purged(old(seen), now)
    {
      var todo := seen.Keys;
      while todo != {}
        invariant todo <= seen.Keys
        invariant Purged(seen, now) == Purged(old(seen), now)
        invariant forall j :: j in seen && j !in todo ==> seen[j] > now
        decreases todo
      {
        var j :| j in todo;
        todo := todo - {j};
        if seen[j] <= now { seen := seen - {j}; }
      }
      assert seen == Purged(seen, now);
    }

    method Accept(jti: string, expiresAt: int, now: int) returns (ok: bool)
      modifies this
      ensures ok == Accepts(old(seen), jti, now)
      ensures seen == AcceptSeen(old(seen), jti, expiresAt, now)
    {
      if jti == "" { return true; }
      PurgeLocked(now);
      if jti in seen && seen[jti] > now { return false; }
      seen := seen[jti := expiresAt];
      return true;
    }
  }

  // ---- sequences of calls, in the order the lock serves them ------------------------------

  datatype Call = Call(jti: string, exp: int, now: int)

  /** The records after the first `n` calls. */
  function After(calls: seq<Call>, n: nat): Seen
    requires n <= |calls|
  {
    if n == 0 then map[] else AcceptSeen(After(calls, n - 1), calls[n - 1].jti, calls[n - 1].exp, calls[n - 1].now)
  }

  predicate Accepted(calls: seq<Call>, k: nat)
    requires k < |calls|
  {
    Accepts(After(calls, k), calls[k].jti, calls[k].now)
  }

  /** Some call after `i` and before `n` read a clock at or past `e`, and so purged. */
  ghost predicate PurgedBetween(calls: seq<Call>, i: nat, n: nat, e: int)
    requires n <= |calls|
  {
    exists m :: i < m < n && calls[m].jti != "" && calls[m].now >= e
  }

  /** The fate of one record: it stays exactly until a later clock reading passes its expiry. */
  lemma {:induction false} RecordFate(calls: seq<Call>, i: nat, n: nat)
    requires i < n <= |calls| && calls[i].jti != "" && Accepted(calls, i)
    requires forall m :: i < m < n && calls[m].jti == calls[i].jti ==> !Accepted(calls, m)
    ensures PurgedBetween(calls, i, n, calls[i].exp) <==> calls[i].jti !in After(calls, n)
    ensures calls[i].jti in After(calls, n) ==> After(calls, n)[calls[i].jti] == calls[i].exp
  {
    var j, e := calls[i].jti, calls[i].exp;
    if n == i + 1 {
    } else {
      RecordFate(calls, i, n - 1);
      var c := calls[n - 1];
      if c.jti == j { assert !Accepted(calls, n - 1); }
      if PurgedBetween(calls, i, n - 1, e) {
        var m :| i < m < n - 1 && calls[m].jti != "" && calls[m].now >= e;
        assert i < m < n && calls[m].jti != "" && calls[m].now >= e;
      } else if c.jti != "" && c.now >= e {
        assert i < n - 1 < n && calls[n - 1].jti != "" && calls[n - 1].now >= e;
      }
    }
  }

  /**
    When a jti is accepted a second time: between two calls with no acceptance of it in
    between, exactly when some later call (the second one included) read the clock at or past
    the first acceptance's expiry.
  */
  lemma ReacceptedIff(calls: seq<Call>, i: nat, k: nat)
    requires i < k < |calls| && calls[i].jti != "" && calls[k].jti == calls[i].jti && Accepted(calls, i)
    requires forall m :: i < m < k && calls[m].jti == calls[i].jti ==> !Accepted(calls, m)
    ensures Accepted(calls, k) <==> PurgedBetween(calls, i, k + 1, calls[i].exp)
  {
    RecordFate(calls, i, k);
    if PurgedBetween(calls, i, k, calls[i].exp) {
      var m :| i < m < k && calls[m].jti != "" && calls[m].now >= calls[i].exp;
      assert i < m < k + 1 && calls[m].jti != "" && calls[m].now >= calls[i].exp;
    } else if calls[k].now >= calls[i].exp {
      assert i < k < k + 1 && calls[k].jti != "" && calls[k].now >= calls[i].exp;
    }
  }

  ghost predicate ClockInLockOrder(calls: seq<Call>) {
    forall m, n :: 0 <= m < n < |calls| ==> calls[m].now <= calls[n].now
  }

  /** With clock readings nondecreasing in lock order, a jti is accepted at most once before its expiry. */
  lemma {:induction false} AtMostOnce(calls: seq<Call>, i: nat, k: nat)
    requires i < k < |calls| && calls[i].jti != "" && calls[k].jti == calls[i].jti && Accepted(calls, i)
    requires ClockInLockOrder(calls) && calls[k].now < calls[i].exp
    ensures !Accepted(calls, k)
    decreases k
  {
    forall m | i < m < k && calls[m].jti == calls[i].jti ensures !Accepted(calls, m) {
      AtMostOnce(calls, i, m);
    }
    ReacceptedIff(calls, i, k);
  }

  /** With clocks in that order, the second acceptance comes exactly once the first one has expired. */
  lemma ReacceptedOnceExpired(calls: seq<Call>, i: nat, k: nat)
    requires i < k < |calls| && calls[i].jti != "" && calls[k].jti == calls[i].jti && Accepted(calls, i)
    requires forall m :: i < m < k && calls[m].jti == calls[i].jti ==> !Accepted(calls, m)
    requires ClockInLockOrder(calls)
    ensures Accepted(calls, k) <==> calls[i].exp <= calls[k].now
  {
    ReacceptedIff(calls, i, k);
    if calls[i].exp <= calls[k].now {
      assert i < k < k + 1 && calls[k].jti != "" && calls[k].now >= calls[i].exp;
    }
  }

  /** Without that order it can be: a slow second presentation overtaken by another call's purge. */
  lemma EarlierClockReaccepts()
    ensures exists calls: seq<Call> :: |calls| == 3 && calls[0] == calls[2].(now := calls[0].now)
              && calls[0].jti != "" && calls[0].now <= calls[2].now < calls[2].exp
              && Accepted(calls, 0) && Accepted(calls, 2)
  {
    var calls := [Call("code", 100, 50), Call("other", 200, 100), Call("code", 100, 99)];
    assert After(calls, 1) == map["code" := 100];
    assert "code" !in Purged(After(calls, 1), 100) && "code" != "other";
    assert After(calls, 2) == AcceptSeen(After(calls, 1), "other", 200, 100);
    assert "code" !in After(calls, 2);
    assert Accepted(calls, 0) && Accepted(calls, 2);
    assert calls[0] == calls[2].(now := calls[0].now);
  }

  /** The jti of call `k` was presented before. */
  ghost predicate PresentedBefore(calls: seq<Call>, k: nat)
    requires k < |calls|
  {
    exists i :: 0 <= i < k && calls[i].jti == calls[k].jti
  }

  /** Every presentation of a jti carries the same expiry: it belongs to one credential. */
  predicate OneExpiry(calls: seq<Call>, jti: string, exp: int) {
    forall i :: 0 <= i < |calls| && calls[i].jti == jti ==> calls[i].exp == exp
  }

  lemma {:induction false} RecordCameFrom(calls: seq<Call>, n: nat, jti: string, exp: int)
    requires n <= |calls| && jti != "" && OneExpiry(calls, jti, exp)
    ensures jti in After(calls, n) ==> After(calls, n)[jti] == exp && exists i :: 0 <= i < n && calls[i].jti == jti
  {
    if n == 0 {
    } else {
      RecordCameFrom(calls, n - 1, jti, exp);
      if calls[n - 1].jti == jti { assert 0 <= n - 1 < n && calls[n - 1].jti == jti; }
    }
  }

  lemma {:induction false} RecordLasts(calls: seq<Call>, i: nat, n: nat, exp: int)
    requires i < n <= |calls| && calls[i].jti != "" && OneExpiry(calls, calls[i].jti, exp)
    requires forall m :: 0 <= m < n ==> calls[m].now < exp
    ensures calls[i].jti in After(calls, n) && After(calls, n)[calls[i].jti] == exp
    decreases n
  {
    if n == i + 1 {
      RecordCameFrom(calls, i, calls[i].jti, exp);
    } else {
      RecordLasts(calls, i, n - 1, exp);
    }
  }

  /**
    Exactly which presentations of a credential are accepted, clocks in lock order: its first one,
    and every one from its expiry on. The guard protects the time before the expiry and no more.
  */
  lemma AcceptedIff(calls: seq<Call>, k: nat)
    requires k < |calls| && calls[k].jti != "" && ClockInLockOrder(calls)
    requires OneExpiry(calls, calls[k].jti, calls[k].exp)
    ensures Accepted(calls, k) <==> !PresentedBefore(calls, k) || calls[k].exp <= calls[k].now
  {
    RecordCameFrom(calls, k, calls[k].jti, calls[k].exp);
    if PresentedBefore(calls, k) && calls[k].now < calls[k].exp {
      var i :| 0 <= i < k && calls[i].jti == calls[k].jti;
      RecordLasts(calls, i, k, calls[k].exp);
    }
  }

  /** The records depend on the calls served, not on those to come. */
  lemma {:induction false} AfterPrefix(calls: seq<Call>, more: seq<Call>, n: nat)
    requires n <= |calls|
    ensures After(calls + more, n) == After(calls, n)
  {
    if n == 0 {
    } else {
      AfterPrefix(calls, more, n - 1);
    }
  }

  /** These calls, in lock order and none later than `now`, left these records. */
  ghost predicate Left(calls: seq<Call>, now: int, seen: Seen) {
    && seen == After(calls, |calls|) && ClockInLockOrder(calls)
    && forall m :: 0 <= m < |calls| ==> calls[m].now <= now
  }

  lemma OneMoreCall(calls: seq<Call>, call: Call, seen: Seen)
    requires Left(calls, call.now, seen)
    ensures Left(calls + [call], call.now, AcceptSeen(seen, call.jti, call.exp, call.now))
  {
    AfterPrefix(calls, [call], |calls|);
  }

  /** The jti is among those presented. */
  ghost predicate Presented(calls: seq<Call>, jti: string) {
    exists i :: 0 <= i < |calls| && calls[i].jti == jti
  }

  /** Whether the next call is accepted: exactly when its jti is new, or its expiry has come. */
  lemma NextAcceptedIff(calls: seq<Call>, seen: Seen, jti: string, exp: int, now: int)
    requires Left(calls, now, seen) && jti != "" && OneExpiry(calls, jti, exp)
    ensures Accepts(seen, jti, now) <==> !Presented(calls, jti) || exp <= now
  {
    var all := calls + [Call(jti, exp, now)];
    AfterPrefix(calls, [Call(jti, exp, now)], |calls|);
    AcceptedIff(all, |calls|);
    if Presented(calls, jti) {
      var i :| 0 <= i < |calls| && calls[i].jti == jti;
      assert all[i] == calls[i];
    }
    if PresentedBefore(all, |calls|) {
      var i :| 0 <= i < |calls| && all[i].jti == all[|calls|].jti;
      assert calls[i] == all[i];
    }
  }
}
