/**
  What signing out ends. The life cycle says which credentials stem from a session, the revocation
  protocol says what the denylist answers about it; together: once a sign-out has had its latency,
  neither the session nor any ticket it handed out opens a door, until they expire by themselves.
*/
module SignOut {
  import opened Credentials
  import opened LifecycleTheorems
  import D = TokenDenylist
  import L = Lifecycle
  import R = RevocationProtocol
  import Q = Requests

  /** In this run call `c` asked about jti `j` long enough after a sign-out of it, and before its expiry. */
  ghost predicate AskedAfterSignOut(cfg: R.Config, s0: R.State, steps: seq<R.Step>, w: nat, c: int, j: string) {
    && R.Initial(s0) && R.Valid(cfg, s0, steps)
    && var s := R.Exec(cfg, s0, steps);
    && c in s.core.calls && s.core.calls[c].Done? && s.core.calls[c].key == j
    && var d := s.core.calls[c];
    && R.WrittenAt(s, w, j)
    && s.core.log[w].at + R.Max(0, cfg.opts.cacheTtl) <= d.start
    && (cfg.opts.cacheTtl <= 0 ==> w < d.mark)
    && d.finish < cfg.exp(j)
  }

  /** What `permits` tells the door that made call `c`. */
  ghost function Permits(cfg: R.Config, s0: R.State, steps: seq<R.Step>, c: int): bool
    requires R.Valid(cfg, s0, steps) && c in R.Exec(cfg, s0, steps).core.calls
    requires R.Exec(cfg, s0, steps).core.calls[c].Done?
  {
    D.Policy(cfg.opts, R.Exec(cfg, s0, steps).core.calls[c].verdict)
  }

  lemma NotPermitted(cfg: R.Config, s0: R.State, steps: seq<R.Step>, w: nat, c: int, j: string)
    requires AskedAfterSignOut(cfg, s0, steps, w, c, j) && !cfg.opts.failOpen
    ensures !Permits(cfg, s0, steps, c)
  {
    R.RevocationLatency(cfg, s0, steps, w, c);
  }

  /** A ticket names the session it was minted from. */
  lemma TicketNamesSession(lc: L.Config, l0: L.State, run: seq<L.Step>, i: nat)
    requires L.Initial(l0) && L.ValidRun(lc, l0, run)
    requires var log := L.Exec(lc, l0, run).log;
             IsMinted(log, i, Ticket) && log[i].origin.Ticketed? && log[i].origin.parent.Some?
    ensures var log := L.Exec(lc, l0, run).log;
            var p := log[i].origin.parent.value;
            p < i && IsIssued(log, p) && log[i].claims.sid == NonEmpty(log[p].claims.jti.Or(""))
  {
    ReachableLog(lc, l0, run);
    var log := L.Exec(lc, l0, run).log;
    assert EntryOk(lc, log, i);
  }

  /**
    Signing out ends a session's tickets: on any instance of a fail-closed bridge, from the store
    write plus the cache life until the session's expiry, no ticket minted from the session opens
    any uid, and neither does the session itself open the bearer door, in whatever tenant.
  */
  lemma TicketsEndWithSession(
      lc: L.Config, l0: L.State, run: seq<L.Step>, i: nat,
      cfg: R.Config, s0: R.State, steps: seq<R.Step>, w: nat, c: int,
      uid: string, gate: bool, xTenant: string, mfa: bool, demands: bool)
    requires L.Initial(l0) && L.ValidRun(lc, l0, run) && !cfg.opts.failOpen
    requires var log := L.Exec(lc, l0, run).log;
             && IsMinted(log, i, Ticket) && log[i].origin.Ticketed? && log[i].origin.parent.Some?
             && var p := log[i].origin.parent.value;
             && p < |log| && log[p].Minted? && log[p].claims.jti.Or("") != ""
             && cfg.exp(log[p].claims.jti.Or("")) == log[p].claims.exp
             && AskedAfterSignOut(cfg, s0, steps, w, c, log[p].claims.jti.Or(""))
    ensures var log := L.Exec(lc, l0, run).log;
            var p := log[i].origin.parent.value;
            && TicketDoor(log[i].claims, uid, Permits(cfg, s0, steps, c), gate).None?
            && BearerDoor(log[p].claims, Permits(cfg, s0, steps, c), xTenant, mfa, demands).None?
  {
    var log := L.Exec(lc, l0, run).log;
    var p := log[i].origin.parent.value;
    TicketNamesSession(lc, l0, run, i);
    NotPermitted(cfg, s0, steps, w, c, log[p].claims.jti.Or(""));
  }

  /** The request presents the session at `p`, as a bearer or through a ticket the session was given. */
  predicate Rests(log: seq<L.Event>, step: L.Step, p: nat) {
    match step
    case Access(auth, _) => auth.Token? && auth.token == p
    case Refresh(auth, _, _) => auth.Token? && auth.token == p
    case Handoff(auth, _) => auth.Token? && auth.token == p
    case MintTicket(auth, _, _, _) => auth.Token? && auth.token == p
    case TicketAccess(t, _, _) => IsMinted(log, t, Ticket) && log[t].origin.Ticketed? && log[t].origin.parent == Some(p)
    case _ => false
  }

  /** Without the denylist's permission such a request does nothing at all. */
  lemma RefusedRequestAddsNothing(lc: L.Config, l0: L.State, run: seq<L.Step>, step: L.Step, p: nat)
    requires L.Initial(l0) && L.ValidRun(lc, l0, run)
    requires var log := L.Exec(lc, l0, run).log;
             Rests(log, step, p) && p < |log| && log[p].Minted? && log[p].claims.jti.Or("") != "" && !step.w.permits
    ensures L.Outcome(lc, L.Exec(lc, l0, run), step) == []
  {
    var s := L.Exec(lc, l0, run);
    if step.TicketAccess? {
      TicketNamesSession(lc, l0, run, step.token);
      Q.ContentServedIff(s, step);
    } else {
      Q.BearerIff(lc, s, p, step.auth.xTenant, step.w);
    }
  }

  /**
    Signing out ends the session and everything that rests on it. On any instance of a fail-closed
    bridge, from the store write plus the cache life until the session's expiry, a request that presents
    the session or one of its tickets, and is told what the denylist answered, serves nothing and mints
    nothing: no resource, no refresh, no hand-off code, no further ticket.
  */
  lemma SignedOutRequestsAddNothing(
      lc: L.Config, l0: L.State, run: seq<L.Step>, step: L.Step, p: nat,
      cfg: R.Config, s0: R.State, steps: seq<R.Step>, w: nat, c: int)
    requires L.Initial(l0) && L.ValidRun(lc, l0, run) && !cfg.opts.failOpen
    requires var log := L.Exec(lc, l0, run).log;
             && Rests(log, step, p) && p < |log| && log[p].Minted? && log[p].claims.jti.Or("") != ""
             && cfg.exp(log[p].claims.jti.Or("")) == log[p].claims.exp
             && AskedAfterSignOut(cfg, s0, steps, w, c, log[p].claims.jti.Or(""))
             && step.w.permits == Permits(cfg, s0, steps, c)
    ensures var s := L.Exec(lc, l0, run);
            L.Outcome(lc, s, step) == [] && L.Next(lc, s, step).log == s.log
  {
    NotPermitted(cfg, s0, steps, w, c, L.Exec(lc, l0, run).log[p].claims.jti.Or(""));
    RefusedRequestAddsNothing(lc, l0, run, step, p);
  }
}
