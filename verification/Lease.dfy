/** Leased execution (src/core/forward-runtime.mjs, `withLease`) over the fenced row
    updates of src/storage/forward-jobs.mjs.

    Several workers share one job row. Each mutation is a database transaction that takes
    the row lock, and a client that stops waiting after sending COMMIT leaves it in doubt. */
module Lease {
  import opened Prelude

  // ---------- One worker's view of its lease ----------

  datatype Config = Config(leaseMs: int, heartbeatMs: int) {
    predicate Valid() { 0 < heartbeatMs && 0 < leaseMs }
  }

  /** The variables of `withLease`; `heartbeatAt` and `expiryAt` are the armed timers. */
  datatype View = View(lost: bool, closed: bool, deadline: int, heartbeatAt: Option<int>,
                       expiryAt: Option<int>, failures: nat, degraded: bool)
  {
    predicate Aborted() { lost || closed }

    /** The worker still acts on its lease at this time. */
    predicate Live(now: int) { !lost && !closed && now < deadline }
  }

  datatype ErrorClass = Transient | CommitUnknown | Definitive

  function Fresh(deadline: int): View { View(false, false, deadline, None, None, 0, false) }

  function Lose(v: View): View {
    if v.lost then v else v.(lost := true, heartbeatAt := None, expiryAt := None)
  }

  function Stop(v: View): View { v.(closed := true, heartbeatAt := None, expiryAt := None) }

  function RetryDelay(cfg: Config, failures: nat): int
    requires failures > 0
  {
    Min(cfg.heartbeatMs, Max(1, Min(1000, cfg.heartbeatMs / 2)) * Power2(Min(failures - 1, 10)))
  }

  function Schedule(v: View, now: int, delay: int): View {
    if v.closed || v.lost then v.(heartbeatAt := None)
    else v.(heartbeatAt := Some(now + Max(0, Min(delay, v.deadline - now))))
  }

  /** `renewed`: a success that arrives after the confirmed deadline proves nothing. */
  function Renewed(cfg: Config, v: View, started: int, now: int): View {
    if v.closed || v.lost then v
    else if now >= v.deadline || now >= started + cfg.leaseMs then Lose(v)
    else
      var confirmed := v.(deadline := started + cfg.leaseMs, expiryAt := Some(started + cfg.leaseMs),
                          degraded := false, failures := 0);
      Schedule(confirmed, now, Max(0, started + cfg.heartbeatMs - now))
  }

  /** The `catch` of `heartbeat`. */
  function RenewFailed(cfg: Config, v: View, error: ErrorClass, now: int): View {
    if v.closed || v.lost then v
    else if error == Definitive || now >= v.deadline then Lose(v)
    else
      var degraded := v.(failures := v.failures + 1, degraded := true);
      Schedule(degraded, now, Min(RetryDelay(cfg, degraded.failures), Max(0, v.deadline - now)))
  }

  /** A live lease that was renewed at least once has both timers armed: expiry exactly at
      the confirmed deadline, the next heartbeat no later. Nothing is armed once it ended. */
  predicate TimersFit(v: View) {
    if v.Aborted() then v.heartbeatAt.None? && v.expiryAt.None?
    else
      && (v.expiryAt.Some? ==> v.expiryAt.value == v.deadline)
      && (v.heartbeatAt.Some? ==> v.heartbeatAt.value <= v.deadline)
  }

  lemma RetryDelayGrowsToTheHeartbeat(cfg: Config, failures: nat)
    requires cfg.Valid() && failures > 0
    ensures 1 <= RetryDelay(cfg, failures) <= RetryDelay(cfg, failures + 1) <= cfg.heartbeatMs
  {
    var base := Max(1, Min(1000, cfg.heartbeatMs / 2));
    var m, n := Min(failures - 1, 10), Min(failures, 10);
    assert n == m || n == m + 1;
    assert Power2(n) >= Power2(m);
    assert base * Power2(m) <= base * Power2(n);
    assert base * Power2(m) >= 1;
  }

  /** The closure of `withLease` with its fields updated in place. */
  class Holder {
    const cfg: Config
    var lost: bool
    var closed: bool
    var leaseDeadline: int
    var heartbeatAt: Option<int>
    var expiryAt: Option<int>
    var consecutiveFailures: nat
    var degraded: bool

    function Value(): View
      reads this
    {
      View(lost, closed, leaseDeadline, heartbeatAt, expiryAt, consecutiveFailures, degraded)
    }

    constructor (cfg: Config, leaseExpiresAt: int)
      ensures this.cfg == cfg && Value() == Fresh(leaseExpiresAt)
    {
      this.cfg := cfg;
      lost, closed, leaseDeadline := false, false, leaseExpiresAt;
      heartbeatAt, expiryAt, consecutiveFailures, degraded := None, None, 0, false;
    }

    method ClearTimers()
      modifies this`heartbeatAt, this`expiryAt
      ensures heartbeatAt == None && expiryAt == None
    {
      heartbeatAt := None;
      expiryAt := None;
    }

    method Abandon()
      modifies this
      ensures Value() == Lose(old(Value()))
    {
      if lost { return; }
      lost := true;
      ClearTimers();
    }

    method StopLease()
      modifies this
      ensures Value() == Stop(old(Value()))
    {
      closed := true;
      ClearTimers();
    }

    /** `assertOwned`: true exactly when the caller may go on at this time. */
    method AssertOwned(now: int, stopping: bool) returns (ok: bool)
      modifies this
      ensures ok ==> !stopping && !lost && now < leaseDeadline && Value() == old(Value())
      ensures !ok ==> stopping || old(lost) || now >= old(leaseDeadline)
      ensures Value() == if now >= old(leaseDeadline) then Lose(old(Value())) else old(Value())
    {
      if !lost && now >= leaseDeadline { Abandon(); }
      ok := !lost && !stopping;
    }

    method ArmExpiry(now: int)
      modifies this
      ensures Value() == if leaseDeadline <= now then Lose(old(Value()).(expiryAt := None)) else old(Value()).(expiryAt := Some(leaseDeadline))
    {
      expiryAt := None;
      if leaseDeadline - now <= 0 { Abandon(); return; }
      expiryAt := Some(now + (leaseDeadline - now));
    }

    method ScheduleHeartbeat(now: int, delay: int)
      modifies this`heartbeatAt
      ensures Value() == Schedule(old(Value()), now, delay)
    {
      heartbeatAt := None;
      if closed || lost { return; }
      heartbeatAt := Some(now + Max(0, Min(delay, leaseDeadline - now)));
    }

    method OnRenewed(requestStarted: int, now: int)
      requires requestStarted <= now
      modifies this
      ensures Value() == Renewed(cfg, old(Value()), requestStarted, now)
    {
      if closed || lost { return; }
      if now >= leaseDeadline || now >= requestStarted + cfg.leaseMs {
        Abandon();
        return;
      }
      leaseDeadline := requestStarted + cfg.leaseMs;
      ArmExpiry(now);
      degraded := false;
      consecutiveFailures := 0;
      ScheduleHeartbeat(now, Max(0, requestStarted + cfg.heartbeatMs - now));
    }

    method OnRenewFailed(error: ErrorClass, now: int)
      modifies this
      ensures Value() == RenewFailed(cfg, old(Value()), error, now)
    {
      if closed || lost { return; }
      if error == Definitive { Abandon(); return; }
      if now >= leaseDeadline { Abandon(); return; }
      consecutiveFailures := consecutiveFailures + 1;
      degraded := true;
      ScheduleHeartbeat(now, Min(RetryDelay(cfg, consecutiveFailures), Max(0, leaseDeadline - now)));
    }
  }
}
