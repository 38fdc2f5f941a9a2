/** Settling a leased job (src/core/forward-runtime.mjs, `executeOwnedJob` and `deliverJob`):
    when a settling update is still sent under a live lease, and runs of the system in which
    a settlement that was applied or overtaken decides who owns the job. */
module LeaseSettling {
  import opened Prelude
  import opened Lease
  import opened LeaseSystem

  // ---------- From the last check to the update ----------

  /** What ends a lease before its deadline: a stop, or a renewal that is definitively refused. */
  predicate Disturbs(s: State, a: Action, w: nat) {
    a == StopWorker(w) || (a == RenewalFailed(w, Definitive) && w in s.workers && s.workers[w].renewal.Some?)
  }

  predicate Disturbed(cfg: Config, s: State, actions: seq<Action>, w: nat)
    decreases |actions|
  {
    actions != [] && (Disturbs(s, actions[0], w) || Disturbed(cfg, Step(cfg, s, actions[0]), actions[1..], w))
  }

  /** The deadline as answered renewals move it: each counts from when it was sent, if it is
      answered before the deadline it is to replace. */
  function MovedOnce(cfg: Config, s: State, a: Action, w: nat, deadline: int): int {
    if a == RenewalAnswered(w) && w in s.workers && s.workers[w].renewal.Some?
      && s.workers[w].renewal.value.stage == Applied && s.now < deadline
    then s.workers[w].renewal.value.started + cfg.leaseMs
    else deadline
  }

  function Moved(cfg: Config, s: State, actions: seq<Action>, w: nat, deadline: int): int
    decreases |actions|
  {
    if actions == [] then deadline
    else Moved(cfg, Step(cfg, s, actions[0]), actions[1..], w, MovedOnce(cfg, s, actions[0], w, deadline))
  }

  predicate InTime(cfg: Config, s: State, actions: seq<Action>, w: nat, deadline: int) {
    !Disturbed(cfg, s, actions, w) && Run(cfg, s, actions).now < Moved(cfg, s, actions, w, deadline)
  }

  /** Actions between the last check and the update: the worker does not leave, nothing it awaits
      throws (which would lead to another check), and the update is not sent. */
  predicate Waits(a: Action, w: nat) { a != Leave(w) && a != PreparationThrew(w) && !(a.SendSettle? && a.w == w) }

  predicate PreparesAt(s: State, w: nat) {
    w in s.workers && s.workers[w].phase == Preparing && s.workers[w].settle.None?
  }

  /** The view of an undisturbed worker, told from the moved deadline alone. */
  predicate Told(s: State, w: nat, deadline: int)
    requires w in s.workers
  {
    var v := s.workers[w].view;
    if s.now < deadline then !v.Aborted() && v.deadline == deadline else v.Aborted() || v.deadline <= s.now
  }

  predicate OfStorage(a: Action) { a.Tick? || a.Claim? || a.Execute? || a.SendCommit? || a.Decide? }

  lemma StorageKeepsPreparing(cfg: Config, s: State, a: Action, w: nat)
    requires Inv(cfg, s) && PreparesAt(s, w) && OfStorage(a)
    ensures PreparesAt(Step(cfg, s, a), w)
  {
    assert WorkerFits(cfg, s, w);
  }

  lemma KeepsPreparing(cfg: Config, s: State, a: Action, w: nat)
    requires Inv(cfg, s) && PreparesAt(s, w) && Waits(a, w)
    ensures PreparesAt(Step(cfg, s, a), w)
  {
    if OfStorage(a) { StorageKeepsPreparing(cfg, s, a, w); }
  }

  /** A preparation that throws leads to a check of its own, which lets the worker prepare again
      exactly if its lease is still live, and otherwise ends it without an update. */
  lemma ThrownPreparationIsChecked(cfg: Config, s: State, w: nat)
    requires PreparesAt(s, w)
    ensures var t := Step(cfg, Step(cfg, s, PreparationThrew(w)), OperationReturned(w));
      && w in t.workers && t.workers[w].settle.None?
      && (PreparesAt(t, w) <==> s.workers[w].view.Live(s.now))
      && (!PreparesAt(t, w) ==> t.workers[w].phase == Ended && t.workers[w].view.closed)
  {}

  /** The steps that may change the view of a worker that prepares. */
  predicate Touches(a: Action, w: nat) {
    a == RenewalAnswered(w) || (a.RenewalFailed? && a.w == w) || a == Expiry(w) || a == Heartbeat(w) || a == StopWorker(w)
  }

  lemma OthersKeepTheView(cfg: Config, s: State, a: Action, w: nat)
    requires PreparesAt(s, w) && Waits(a, w) && !Touches(a, w)
    ensures w in Step(cfg, s, a).workers && Step(cfg, s, a).workers[w].view == s.workers[w].view
    ensures s.now <= Step(cfg, s, a).now
  {}

  lemma AnswerKeepsTold(cfg: Config, s: State, w: nat, deadline: int)
    requires cfg.Valid() && Inv(cfg, s) && PreparesAt(s, w) && Told(s, w, deadline)
    ensures Told(OnRenewalAnswered(cfg, s, w), w, MovedOnce(cfg, s, RenewalAnswered(w), w, deadline))
  {
    assert WorkerFits(cfg, s, w);
  }

  lemma FailureKeepsTold(cfg: Config, s: State, w: nat, error: ErrorClass, deadline: int)
    requires cfg.Valid() && Inv(cfg, s) && PreparesAt(s, w) && Told(s, w, deadline)
    requires error != Definitive || s.workers[w].renewal.None?
    ensures Told(OnRenewalFailed(cfg, s, w, error), w, deadline)
  {}

  lemma TimersKeepTold(cfg: Config, s: State, w: nat, deadline: int)
    requires cfg.Valid() && Inv(cfg, s) && PreparesAt(s, w) && Told(s, w, deadline)
    ensures Told(OnExpiry(s, w), w, deadline) && Told(OnHeartbeat(s, w), w, deadline)
  {
    assert WorkerFits(cfg, s, w);
  }

  lemma KeepsTold(cfg: Config, s: State, a: Action, w: nat, deadline: int)
    requires cfg.Valid() && Inv(cfg, s) && PreparesAt(s, w) && Waits(a, w) && !Disturbs(s, a, w)
    requires Told(s, w, deadline)
    ensures w in Step(cfg, s, a).workers && Told(Step(cfg, s, a), w, MovedOnce(cfg, s, a, w, deadline))
  {
    if a == RenewalAnswered(w) { AnswerKeepsTold(cfg, s, w, deadline); }
    else if a.RenewalFailed? && a.w == w { FailureKeepsTold(cfg, s, w, a.error, deadline); }
    else if a == Expiry(w) || a == Heartbeat(w) { TimersKeepTold(cfg, s, w, deadline); }
    else { OthersKeepTheView(cfg, s, a, w); }
  }

  lemma DisturbedIsAborted(cfg: Config, s: State, a: Action, w: nat)
    requires w in s.workers && Disturbs(s, a, w) && s.workers[w].phase == Preparing
    ensures w in Step(cfg, s, a).workers && Step(cfg, s, a).workers[w].view.Aborted()
  {}

  lemma {:induction false} AbortedStays(cfg: Config, s: State, actions: seq<Action>, w: nat)
    requires w in s.workers && s.workers[w].view.Aborted()
    ensures w in Run(cfg, s, actions).workers && Run(cfg, s, actions).workers[w].view.Aborted()
    decreases |actions|
  {
    if actions != [] {
      NothingElseExtends(cfg, s, actions[0], w);
      AbortedStays(cfg, Step(cfg, s, actions[0]), actions[1..], w);
    }
  }

  lemma {:induction false} StaysPreparing(cfg: Config, s: State, actions: seq<Action>, w: nat)
    requires cfg.Valid() && Inv(cfg, s) && PreparesAt(s, w)
    requires forall i :: 0 <= i < |actions| ==> Waits(actions[i], w)
    ensures PreparesAt(Run(cfg, s, actions), w)
    decreases |actions|
  {
    if actions != [] {
      KeepsPreparing(cfg, s, actions[0], w);
      StepKeepsInv(cfg, s, actions[0]);
      StaysPreparing(cfg, Step(cfg, s, actions[0]), actions[1..], w);
    }
  }

  lemma {:induction false} LiveIsUndisturbed(cfg: Config, s: State, actions: seq<Action>, w: nat, deadline: int)
    requires cfg.Valid() && Inv(cfg, s) && PreparesAt(s, w) && Told(s, w, deadline)
    requires forall i :: 0 <= i < |actions| ==> Waits(actions[i], w)
    ensures var t := Run(cfg, s, actions);
      && w in t.workers
      && (t.workers[w].view.Live(t.now) <==> InTime(cfg, s, actions, w, deadline))
    decreases |actions|
  {
    if actions != [] {
      var a, t := actions[0], Step(cfg, s, actions[0]);
      if Disturbs(s, a, w) {
        DisturbedIsAborted(cfg, s, a, w);
        AbortedStays(cfg, t, actions[1..], w);
      } else {
        KeepsPreparing(cfg, s, a, w);
        KeepsTold(cfg, s, a, w, deadline);
        StepKeepsInv(cfg, s, a);
        LiveIsUndisturbed(cfg, t, actions[1..], w, MovedOnce(cfg, s, a, w, deadline));
      }
    }
  }

  lemma CheckedPrepares(cfg: Config, s: State, w: nat)
    requires cfg.Valid() && Inv(cfg, s)
    requires w in s.workers && s.workers[w].phase == Working && s.workers[w].view.Live(s.now)
    ensures var t := Step(cfg, s, OperationReturned(w));
      Inv(cfg, t) && PreparesAt(t, w) && Told(t, w, s.workers[w].view.deadline)
  {
    assert WorkerFits(cfg, s, w);
    StepKeepsInv(cfg, s, OperationReturned(w));
  }

  lemma PreparedSends(cfg: Config, s: State, w: nat, settle: Settle)
    requires PreparesAt(s, w)
    ensures w in Step(cfg, s, SendSettle(w, settle)).workers
    ensures Step(cfg, s, SendSettle(w, settle)).workers[w].settle == Some(Request(Settlement(settle), s.now, Sent))
  {}

  /** When a settling update is sent in time. Between the last check that lets a worker settle and the
      update itself anything may happen; the update goes out whatever it was, and it goes out
      under a live lease exactly when nothing stopped the worker, no renewal was definitively
      refused, and the clock is before the deadline as answered renewals moved it. */
  lemma SentLiveExactlyWhenUndisturbed(cfg: Config, start: int, s: State, w: nat, between: seq<Action>, settle: Settle)
    requires cfg.Valid() && Reaches(cfg, Initial(start), s)
    requires w in s.workers && s.workers[w].phase == Working && s.workers[w].view.Live(s.now)
    requires forall i :: 0 <= i < |between| ==> Waits(between[i], w)
    ensures var checked := Step(cfg, s, OperationReturned(w));
      var t := Run(cfg, checked, between);
      && PreparesAt(t, w)
      && Step(cfg, t, SendSettle(w, settle)).workers[w].settle == Some(Request(Settlement(settle), t.now, Sent))
      && (t.workers[w].view.Live(t.now) <==> InTime(cfg, checked, between, w, s.workers[w].view.deadline))
  {
    ReachedFits(cfg, start, s);
    CheckedPrepares(cfg, s, w);
    var checked := Step(cfg, s, OperationReturned(w));
    StaysPreparing(cfg, checked, between, w);
    LiveIsUndisturbed(cfg, checked, between, w, s.workers[w].view.deadline);
    PreparedSends(cfg, Run(cfg, checked, between), w, settle);
  }

  /** The other way a settling update is sent: after the lease was closed. It is always a retry
      of the delivery, never sent live, and its worker never acts under the lease again. */
  lemma SentAfterCloseIsNeverLive(cfg: Config, start: int, s: State, w: nat, settle: Settle, after: seq<Action>)
    requires cfg.Valid() && Reaches(cfg, Initial(start), s)
    requires w in s.workers && s.workers[w].phase == Ended
    ensures var t := Step(cfg, s, SendSettle(w, settle));
      && (t != s <==> settle == Retry(ReplyPending))
      && (t != s ==>
        && t.workers[w].settle == Some(Request(Settlement(settle), s.now, Sent)) && t.workers[w].view.closed
        && !Owns(Run(cfg, t, after), w))
  {
    ReachedFits(cfg, start, s);
    assert WorkerFits(cfg, s, w);
    var t := Step(cfg, s, SendSettle(w, settle));
    if t != s { AbortedStays(cfg, t, after, w); }
  }

  // ---------- Runs ----------

  lemma {:induction false} RunAppends(cfg: Config, s: State, a: seq<Action>, b: seq<Action>)
    ensures Run(cfg, s, a + b) == Run(cfg, Run(cfg, s, a), b)
    decreases |a|
  {
    if a == [] {
      assert a + b == b;
    } else {
      assert (a + b)[1..] == a[1..] + b;
      RunAppends(cfg, Step(cfg, s, a[0]), a[1..], b);
    }
  }

  lemma ReachesOneMore(cfg: Config, r: State, s: State, a: Action)
    requires Reaches(cfg, r, s)
    ensures Reaches(cfg, r, Step(cfg, s, a))
  {
    var actions :| Run(cfg, r, actions) == s;
    RunAppends(cfg, r, actions, [a]);
    assert [a][1..] == [];
    assert Run(cfg, s, [a]) == Run(cfg, Step(cfg, s, a), []);
  }

  lemma ReachesInTwo(cfg: Config, r: State, s: State, a: Action, b: Action)
    requires Reaches(cfg, r, s)
    ensures Reaches(cfg, r, Step(cfg, Step(cfg, s, a), b))
  {
    ReachesOneMore(cfg, r, s, a);
    ReachesOneMore(cfg, r, Step(cfg, s, a), b);
  }

  /** The job's first claim, with its first renewal in flight and then waiting on COMMIT. */
  function FirstClaim(cfg: Config, stage: Stage, held: Option<Held>): State {
    State(0, Row(Running, Some(0), Some(cfg.leaseMs)),
      map[0 := Worker(Starting, Fresh(cfg.leaseMs), Some(Request(Renewal, 0, stage)), None)], held, [])
  }

  /** The lease of the first claim after its first renewal, the next heartbeat armed. */
  function FirstView(cfg: Config): View {
    View(false, false, cfg.leaseMs, Some(Min(cfg.heartbeatMs, cfg.leaseMs)), Some(cfg.leaseMs), 0, false)
  }

  function FirstWorker(cfg: Config, phase: Phase): State {
    State(0, Row(Running, Some(0), Some(cfg.leaseMs)), map[0 := Worker(phase, FirstView(cfg), None, None)], None,
      [Write(0, Renewal)])
  }

  lemma FirstClaimIsReached(cfg: Config)
    requires cfg.Valid()
    ensures Reaches(cfg, Initial(0), FirstClaim(cfg, Sent, None))
  {
    assert Run(cfg, Initial(0), []) == Initial(0);
    ReachesInTwo(cfg, Initial(0), Initial(0), Claim(0, 0, true), FirstRenewal(0));
  }

  lemma FirstCommitIsReached(cfg: Config)
    requires cfg.Valid()
    ensures Reaches(cfg, Initial(0), FirstClaim(cfg, Open, Some(Held(0, Renewal, 0, true, true))))
  {
    FirstClaimIsReached(cfg);
    ReachesInTwo(cfg, Initial(0), FirstClaim(cfg, Sent, None), Execute(0, true, 0), SendCommit);
  }

  lemma WorkingIsReached(cfg: Config)
    requires cfg.Valid()
    ensures Reaches(cfg, Initial(0), FirstWorker(cfg, Working))
  {
    FirstCommitIsReached(cfg);
    ReachesInTwo(cfg, Initial(0), FirstClaim(cfg, Open, Some(Held(0, Renewal, 0, true, true))), Decide(true), RenewalAnswered(0));
  }

  /** The first claim of the first job comes to prepare its settling update. */
  lemma PreparingIsReached(cfg: Config)
    requires cfg.Valid()
    ensures Reaches(cfg, Initial(0), FirstWorker(cfg, Preparing))
  {
    WorkingIsReached(cfg);
    ReachesOneMore(cfg, Initial(0), FirstWorker(cfg, Working), OperationReturned(0));
  }

  /** The check is not repeated after the awaited preparation: a worker that dawdles to its
      deadline sends its update with the lease already gone. The fence is what makes that
      harmless. */
  lemma SettleCanBeSentLate(cfg: Config, settle: Settle) returns (s: State)
    requires cfg.Valid()
    ensures Reaches(cfg, Initial(0), s) && 0 in s.workers && !s.workers[0].view.Live(s.now)
    ensures s.workers[0].settle == Some(Request(Settlement(settle), s.now, Sent))
  {
    PreparingIsReached(cfg);
    var p := FirstWorker(cfg, Preparing);
    ReachesInTwo(cfg, Initial(0), p, Tick(cfg.leaseMs), SendSettle(0, settle));
    s := Step(cfg, Step(cfg, p, Tick(cfg.leaseMs)), SendSettle(0, settle));
  }

  /** The first claim with its settlement waiting on COMMIT, and after that was lost. */
  function Handing(cfg: Config): State {
    FirstWorker(cfg, Settling).(
      workers := map[0 := Worker(Settling, FirstView(cfg), None, Some(Request(Settlement(ToReply), 0, Open)))],
      held := Some(Held(0, Settlement(ToReply), 0, true, true)))
  }

  function Handed(cfg: Config): State {
    FirstWorker(cfg, Working).(row := Row(ReplyPending, Some(0), Some(0)),
      log := [Write(0, Renewal), Write(0, Settlement(ToReply))])
  }

  lemma HandingIsReached(cfg: Config)
    requires cfg.Valid()
    ensures Reaches(cfg, Initial(0), Handing(cfg))
  {
    PreparingIsReached(cfg);
    var s := FirstWorker(cfg, Preparing);
    ReachesInTwo(cfg, Initial(0), s, SendSettle(0, ToReply), Execute(0, false, 0));
    ReachesOneMore(cfg, Initial(0), Step(cfg, Step(cfg, s, SendSettle(0, ToReply)), Execute(0, false, 0)), SendCommit);
  }

  lemma HandedIsReached(cfg: Config)
    requires cfg.Valid()
    ensures Reaches(cfg, Initial(0), Handed(cfg))
  {
    HandingIsReached(cfg);
    ReachesInTwo(cfg, Initial(0), Handing(cfg), SettleFailed(0), Decide(true));
    assert [Write(0, Renewal)] + [Write(0, Settlement(ToReply))] == [Write(0, Renewal), Write(0, Settlement(ToReply))];
  }

  /** The exception to exclusivity is real: a settlement is applied and its answer lost, so its
      worker goes on under its lease, passes its next check and prepares to settle again,
      while a second claim owns the job. */
  lemma HandedOverUnknowingly(cfg: Config) returns (s: State)
    requires cfg.Valid()
    ensures Reaches(cfg, Initial(0), s)
    ensures Owns(s, 0) && Owns(s, 1) && HandedOver(s, 0) && Secure(s, 1) && s.workers[0].phase == Preparing
  {
    HandedIsReached(cfg);
    var log := Handed(cfg).log;
    assert log[..1] == [Write(0, Renewal)] && log[..1][..0] == [];
    ReachesInTwo(cfg, Initial(0), Handed(cfg), Claim(1, 0, true), OperationReturned(0));
    s := Step(cfg, Step(cfg, Handed(cfg), Claim(1, 0, true)), OperationReturned(0));
  }

  /** A renewal is sent and waits while the settlement sent after it is applied first. */
  function Overtaken(cfg: Config, stage: Stage): State {
    var h := cfg.heartbeatMs;
    var view := FirstView(cfg).(heartbeatAt := None);
    var x := Worker(Settling, view, Some(Request(Renewal, h, Sent)), Some(Request(Settlement(ToReply), h + 1, stage)));
    if stage == Applied then
      State(h + 1, Row(ReplyPending, Some(0), Some(h + 1)), map[0 := x], None, [Write(0, Renewal), Write(0, Settlement(ToReply))])
    else State(h + 1, Row(Running, Some(0), Some(cfg.leaseMs)), map[0 := x], None, [Write(0, Renewal)])
  }

  lemma BothAreSent(cfg: Config)
    requires cfg.Valid() && cfg.heartbeatMs + 1 < cfg.leaseMs
    ensures Reaches(cfg, Initial(0), Overtaken(cfg, Sent))
  {
    PreparingIsReached(cfg);
    var s := FirstWorker(cfg, Preparing);
    ReachesInTwo(cfg, Initial(0), s, Tick(cfg.heartbeatMs), Heartbeat(0));
    s := Step(cfg, Step(cfg, s, Tick(cfg.heartbeatMs)), Heartbeat(0));
    ReachesInTwo(cfg, Initial(0), s, Tick(1), SendSettle(0, ToReply));
  }

  lemma SettlementOvertakes(cfg: Config)
    requires cfg.Valid() && cfg.heartbeatMs + 1 < cfg.leaseMs
    ensures Reaches(cfg, Initial(0), Overtaken(cfg, Applied))
  {
    BothAreSent(cfg);
    var s := Overtaken(cfg, Sent);
    ReachesInTwo(cfg, Initial(0), s, Execute(0, false, cfg.heartbeatMs + 1), SendCommit);
    s := Step(cfg, Step(cfg, s, Execute(0, false, cfg.heartbeatMs + 1)), SendCommit);
    ReachesOneMore(cfg, Initial(0), s, Decide(true));
    assert [Write(0, Renewal)] + [Write(0, Settlement(ToReply))] == [Write(0, Renewal), Write(0, Settlement(ToReply))];
  }

  /** A lease is handed over for good only once no renewal of it waits for the row lock: one that
      took its timestamp before the settlement did, and got the lock after it, matches the row
      and revives the lease. */
  lemma LateRenewalRevives(cfg: Config) returns (s: State, t: State)
    requires cfg.Valid() && cfg.heartbeatMs + 1 < cfg.leaseMs
    ensures Reaches(cfg, Initial(0), s) && Owns(s, 0) && HandedOver(s, 0)
    ensures Reaches(cfg, s, t) && Secure(t, 0) && t.row.status == ReplyPending
  {
    SettlementOvertakes(cfg);
    s := Overtaken(cfg, Applied);
    assert Run(cfg, s, []) == s;
    ReachesInTwo(cfg, s, s, Execute(0, true, cfg.heartbeatMs), SendCommit);
    t := Step(cfg, Step(cfg, s, Execute(0, true, cfg.heartbeatMs)), SendCommit);
    ReachesOneMore(cfg, s, t, Decide(true));
    t := Step(cfg, t, Decide(true));
  }
}
