/** Every claim of one job row running against one database: the workers of
    src/core/forward-runtime.mjs, the fenced updates of src/storage/forward-jobs.mjs, and
    the transactions of src/storage/connection.mjs, whose COMMIT answer may be lost.

    Clocks are one nondecreasing `now`. A claim carries a fresh owner token, so a worker is
    named by its claim. A client that stops waiting before COMMIT was sent destroys the
    connection and the transaction rolls back; after that the outcome is open, but until
    it is decided the transaction keeps the row lock. */
module LeaseSystem {
  import opened Prelude
  import opened Lease

  datatype Status = Pending | Running | ReplyPending | Terminal

  datatype Row = Row(status: Status, owner: Option<nat>, expires: Option<int>)

  /** The settling updates; `Retry` clears the lease and moves to any status. */
  datatype Settle = ToReply | Finish | FinishWithoutReply | Retry(target: Status)

  datatype Kind = Renewal | Settlement(settle: Settle)

  /** A request as its sender sees it; `Open` holds the row lock. */
  datatype Stage = Sent | Open | Applied | Refused

  datatype Request = Request(kind: Kind, started: int, stage: Stage)

  datatype Phase = Starting | Working | Preparing | Settling | Closing | Ended

  datatype Worker = Worker(phase: Phase, view: View, renewal: Option<Request>, settle: Option<Request>)

  /** The transaction that holds the row lock. */
  datatype Held = Held(worker: nat, kind: Kind, at: int, committing: bool, awaited: bool)

  /** An update of the row that was applied for a claim. */
  datatype Write = Write(claim: nat, kind: Kind)

  /** `log` is the history of applied updates. */
  datatype State = State(now: int, row: Row, workers: map<nat, Worker>, held: Option<Held>, log: seq<Write>)

  datatype Action =
    | Tick(elapsed: nat)
    | Claim(w: nat, at: int, answered: bool)
    | FirstRenewal(w: nat)
    | Heartbeat(w: nat)
    | Execute(w: nat, renewal: bool, at: int)
    | SendCommit
    | Decide(applied: bool)
    | RenewalAnswered(w: nat)
    | RenewalFailed(w: nat, error: ErrorClass)
    | Expiry(w: nat)
    | OperationReturned(w: nat)
    | PreparationThrew(w: nat)
    | SendSettle(w: nat, settle: Settle)
    | SettleAnswered(w: nat)
    | SettleFailed(w: nat)
    | StopWorker(w: nat)
    | Leave(w: nat)

  // ---------- The row updates ----------

  predicate Claimable(r: Row, at: int) {
    match r.status
    case Pending => true
    case Running => r.expires.Some? && r.expires.value <= at
    case _ => r.expires.None? || r.expires.value <= at
  }

  function Claimed(cfg: Config, r: Row, w: nat, at: int): Row {
    Row(if r.status == Pending then Running else r.status, Some(w), Some(at + cfg.leaseMs))
  }

  predicate StatusFits(k: Kind, status: Status) {
    match k
    case Renewal => status != Pending
    case Settlement(ToReply) => status == Running
    case Settlement(Finish) => status == ReplyPending
    case Settlement(FinishWithoutReply) => status == Running
    case Settlement(Retry(_)) => status == Running || status == ReplyPending
  }

  /** The WHERE clause shared by every fenced update. */
  predicate Matches(k: Kind, r: Row, w: nat, at: int) {
    r.owner == Some(w) && r.expires.Some? && r.expires.value > at && StatusFits(k, r.status)
  }

  function Updated(cfg: Config, k: Kind, r: Row, at: int): Row {
    match k
    case Renewal => r.(expires := Some(at + cfg.leaseMs))
    case Settlement(ToReply) => Row(ReplyPending, r.owner, Some(at))
    case Settlement(Finish) => Row(Terminal, None, None)
    case Settlement(FinishWithoutReply) => Row(Terminal, None, None)
    case Settlement(Retry(target)) => Row(target, None, None)
  }

  // ---------- Steps ----------

  function Put(s: State, w: nat, x: Worker): State { s.(workers := s.workers[w := x]) }

  function Pick(x: Worker, renewal: bool): Option<Request> { if renewal then x.renewal else x.settle }

  function WithStage(x: Worker, renewal: bool, stage: Stage): Worker
    requires Pick(x, renewal).Some?
  {
    if renewal then x.(renewal := Some(x.renewal.value.(stage := stage)))
    else x.(settle := Some(x.settle.value.(stage := stage)))
  }

  function End(x: Worker): Worker { x.(phase := Ended, view := Stop(x.view)) }

  /** The client gives up on its request: before COMMIT the transaction is gone. */
  function Forsake(held: Option<Held>, w: nat, renewal: bool): Option<Held> {
    if held.Some? && held.value.worker == w && held.value.awaited && held.value.kind.Renewal? == renewal then
      if held.value.committing then Some(held.value.(awaited := false)) else None
    else held
  }

  /** A claim commits; its answer may be lost, and then nobody runs under it. */
  function OnClaim(cfg: Config, s: State, w: nat, at: int, answered: bool): State {
    if s.held.Some? || w in s.workers || at > s.now || !Claimable(s.row, at) then s
    else
      var x := Worker(Starting, Fresh(at + cfg.leaseMs), None, None);
      Put(s.(row := Claimed(cfg, s.row, w, at)), w, if answered then x else End(x))
  }

  /** The renewal `withLease` awaits before it starts the operation. */
  function OnFirstRenewal(s: State, w: nat): State {
    if w !in s.workers || s.workers[w].phase != Starting || s.workers[w].renewal.Some? then s
    else
      var x := s.workers[w];
      if x.view.Aborted() || s.now >= x.view.deadline then Put(s, w, End(x.(view := Lose(x.view))))
      else Put(s, w, x.(renewal := Some(Request(Renewal, s.now, Sent))))
  }

  function OnHeartbeat(s: State, w: nat): State {
    if w !in s.workers || s.workers[w].view.heartbeatAt.None? || s.workers[w].view.heartbeatAt.value > s.now then s
    else
      var x := s.workers[w].(view := s.workers[w].view.(heartbeatAt := None));
      if x.view.Aborted() then Put(s, w, x)
      else if s.now >= x.view.deadline then Put(s, w, x.(view := Lose(x.view)))
      else Put(s, w, x.(renewal := Some(Request(Renewal, s.now, Sent))))
  }

  /** The fenced UPDATE runs with a timestamp taken since the request was sent. */
  function OnExecute(s: State, w: nat, renewal: bool, at: int): State {
    if s.held.Some? || w !in s.workers || Pick(s.workers[w], renewal).None? then s
    else
      var x := s.workers[w];
      var r := Pick(x, renewal).value;
      if r.stage != Sent || at < r.started || at > s.now then s
      else if Matches(r.kind, s.row, w, at) then
        Put(s, w, WithStage(x, renewal, Open)).(held := Some(Held(w, r.kind, at, false, true)))
      else Put(s, w, WithStage(x, renewal, Refused))
  }

  function OnSendCommit(s: State): State {
    if s.held.Some? && s.held.value.awaited then s.(held := Some(s.held.value.(committing := true))) else s
  }

  /** A transaction whose COMMIT was sent is applied or is not. */
  function OnDecide(cfg: Config, s: State, applied: bool): State {
    if s.held.None? || !s.held.value.committing then s
    else
      var h := s.held.value;
      var after := if applied then
        s.(held := None, row := Updated(cfg, h.kind, s.row, h.at), log := s.log + [Write(h.worker, h.kind)])
      else s.(held := None);
      if h.awaited && h.worker in s.workers && Pick(s.workers[h.worker], h.kind.Renewal?).Some? then
        Put(after, h.worker, WithStage(s.workers[h.worker], h.kind.Renewal?, if applied then Applied else Refused))
      else after
  }

  function OnRenewalAnswered(cfg: Config, s: State, w: nat): State {
    if w !in s.workers || s.workers[w].renewal.None? || s.workers[w].renewal.value.stage != Applied then s
    else
      var x := s.workers[w];
      var view := Renewed(cfg, x.view, x.renewal.value.started, s.now);
      var y := x.(view := view, renewal := None);
      if x.phase != Starting then Put(s, w, y)
      else if view.Aborted() || s.now >= view.deadline then Put(s, w, End(y))
      else Put(s, w, y.(phase := Working))
  }

  /** Any failure the client reports, from a refused update to a lost COMMIT answer. */
  function OnRenewalFailed(cfg: Config, s: State, w: nat, error: ErrorClass): State {
    if w !in s.workers || s.workers[w].renewal.None? then s
    else
      var x := s.workers[w].(renewal := None);
      Put(s.(held := Forsake(s.held, w, true)), w,
        if x.phase == Starting then End(x) else x.(view := RenewFailed(cfg, x.view, error, s.now)))
  }

  function OnExpiry(s: State, w: nat): State {
    if w !in s.workers || s.workers[w].view.expiryAt.None? || s.workers[w].view.expiryAt.value > s.now then s
    else Put(s, w, s.workers[w].(view := Lose(s.workers[w].view)))
  }

  /** `assertOwned` after the operation returned or failed; what follows is only awaited
      preparation until the settling update is sent, without another check. */
  function OnOperationReturned(s: State, w: nat): State {
    if w !in s.workers || s.workers[w].phase != Working then s
    else
      var x := s.workers[w];
      if x.view.Aborted() || s.now >= x.view.deadline then Put(s, w, End(x.(view := Lose(x.view))))
      else Put(s, w, x.(phase := Preparing))
  }

  /** An awaited step before the update throws: the `catch` checks the lease once more. */
  function OnPreparationThrew(s: State, w: nat): State {
    if w !in s.workers || s.workers[w].phase != Preparing then s else Put(s, w, s.workers[w].(phase := Working))
  }

  /** `deliverJob` also sends one retry after its lease was closed. */
  function OnSendSettle(s: State, w: nat, settle: Settle): State {
    if w !in s.workers || s.workers[w].settle.Some? then s
    else
      var x := s.workers[w];
      if x.phase == Preparing || (x.phase == Ended && settle == Retry(ReplyPending)) then
        Put(s, w, x.(phase := Settling, settle := Some(Request(Settlement(settle), s.now, Sent))))
      else s
  }

  /** The operation still cleans up after itself under the lease, then leaves. */
  function OnSettleAnswered(s: State, w: nat): State {
    if w !in s.workers || s.workers[w].settle.None? || s.workers[w].settle.value.stage != Applied then s
    else Put(s, w, s.workers[w].(phase := Closing, settle := None))
  }

  function OnSettleFailed(s: State, w: nat): State {
    if w !in s.workers || s.workers[w].settle.None? then s
    else Put(s.(held := Forsake(s.held, w, false)), w, s.workers[w].(phase := Working, settle := None))
  }

  function OnStop(s: State, w: nat): State {
    if w !in s.workers then s else Put(s, w, s.workers[w].(view := Stop(s.workers[w].view)))
  }

  /** `finally`: a renewal in flight is left to run. */
  function OnLeave(s: State, w: nat): State {
    if w !in s.workers || s.workers[w].settle.Some? then s else Put(s, w, End(s.workers[w]))
  }

  function OnTick(s: State, elapsed: nat): State { s.(now := s.now + elapsed) }

  function Step(cfg: Config, s: State, a: Action): State {
    match a
    case Tick(elapsed) => OnTick(s, elapsed)
    case Claim(w, at, answered) => OnClaim(cfg, s, w, at, answered)
    case FirstRenewal(w) => OnFirstRenewal(s, w)
    case Heartbeat(w) => OnHeartbeat(s, w)
    case Execute(w, renewal, at) => OnExecute(s, w, renewal, at)
    case SendCommit => OnSendCommit(s)
    case Decide(applied) => OnDecide(cfg, s, applied)
    case RenewalAnswered(w) => OnRenewalAnswered(cfg, s, w)
    case RenewalFailed(w, error) => OnRenewalFailed(cfg, s, w, error)
    case Expiry(w) => OnExpiry(s, w)
    case OperationReturned(w) => OnOperationReturned(s, w)
    case PreparationThrew(w) => OnPreparationThrew(s, w)
    case SendSettle(w, settle) => OnSendSettle(s, w, settle)
    case SettleAnswered(w) => OnSettleAnswered(s, w)
    case SettleFailed(w) => OnSettleFailed(s, w)
    case StopWorker(w) => OnStop(s, w)
    case Leave(w) => OnLeave(s, w)
  }

  function Run(cfg: Config, s: State, actions: seq<Action>): State
    decreases |actions|
  {
    if actions == [] then s else Run(cfg, Step(cfg, s, actions[0]), actions[1..])
  }

  /** A registered job nobody has claimed. */
  function Initial(now: int): State { State(now, Row(Pending, None, None), map[], None, []) }

  // ---------- The invariant ----------

  /** The claim may still cause effects outside the database: it has not ended or been told to
      stop, and its confirmed deadline lies ahead. */
  predicate Owns(s: State, w: nat) {
    w in s.workers && s.workers[w].phase != Ended && s.workers[w].view.Live(s.now)
  }

  /** The last update applied for the claim settled the job. */
  predicate LastSettled(log: seq<Write>, w: nat)
    decreases |log|
  {
    log != [] &&
      var last := log[|log| - 1];
      if last.claim == w then last.kind.Settlement? else LastSettled(log[..|log| - 1], w)
  }

  predicate HandedOver(s: State, w: nat) { LastSettled(s.log, w) }

  /** Owns the job, and no update that was applied has handed it over. */
  predicate Secure(s: State, w: nat) { Owns(s, w) && !HandedOver(s, w) }

  /** What the database must say while a claim owns the job. */
  predicate Backed(s: State, w: nat)
    requires w in s.workers
  {
    && s.row.owner == Some(w)
    && s.row.status != Pending
    && s.row.expires.Some? && s.workers[w].view.deadline <= s.row.expires.value
  }

  predicate HeldFits(cfg: Config, s: State) {
    s.held.Some? ==>
      var h := s.held.value;
      && h.worker in s.workers
      && Matches(h.kind, s.row, h.worker, h.at)
      && (h.kind.Renewal? ==> s.workers[h.worker].view.deadline <= h.at + cfg.leaseMs)
      && h.at <= s.now
      && (h.awaited ==>
        && Pick(s.workers[h.worker], h.kind.Renewal?).Some?
        && Pick(s.workers[h.worker], h.kind.Renewal?).value.stage == Open
        && Pick(s.workers[h.worker], h.kind.Renewal?).value.started <= h.at)
      && (!h.awaited ==> h.committing)
  }

  predicate HeldBy(s: State, w: nat, renewal: bool) {
    s.held.Some? && s.held.value.worker == w && s.held.value.awaited && s.held.value.kind.Renewal? == renewal
  }

  predicate RenewsFor(s: State, w: nat) {
    s.held.Some? && s.held.value.worker == w && s.held.value.kind.Renewal?
  }

  predicate RenewalFits(cfg: Config, s: State, w: nat)
    requires w in s.workers
  {
    var x := s.workers[w];
    x.renewal.Some? ==>
      var r := x.renewal.value;
      && r.kind == Renewal && r.started <= s.now
      && x.view.deadline <= r.started + cfg.leaseMs
      && (r.stage == Open <==> HeldBy(s, w, true))
      && (r.stage == Applied ==> !RenewsFor(s, w))
      && (r.stage == Applied && Secure(s, w) ==> s.row.expires.Some? && r.started + cfg.leaseMs <= s.row.expires.value)
  }

  predicate SettleFits(s: State, w: nat)
    requires w in s.workers
  {
    var x := s.workers[w];
    && (x.phase == Ended ==> x.view.closed)
    && (x.settle.Some? ==>
      && x.phase == Settling
      && x.settle.value.kind.Settlement?
      && (x.settle.value.stage == Open <==> HeldBy(s, w, false)))
  }

  /** The heartbeat loop of a live lease is never dropped: exactly one of "armed" and "in
      flight" holds, and the expiry timer stands at the confirmed deadline. */
  predicate LoopFits(s: State, w: nat)
    requires w in s.workers
  {
    var x := s.workers[w];
    && TimersFit(x.view)
    && (x.view.heartbeatAt.Some? ==> x.renewal.None?)
    && (x.phase == Starting ==> x.view.heartbeatAt.None? && x.view.expiryAt.None?)
    && (x.phase != Starting && !x.view.Aborted() ==>
      && x.view.expiryAt == Some(x.view.deadline)
      && (x.view.heartbeatAt.Some? <==> x.renewal.None?))
  }

  predicate WorkerFits(cfg: Config, s: State, w: nat)
    requires w in s.workers
  {
    && s.workers[w].view.deadline <= s.now + cfg.leaseMs
    && RenewalFits(cfg, s, w) && SettleFits(s, w) && LoopFits(s, w)
    && (Secure(s, w) ==> Backed(s, w))
    && (HandedOver(s, w) && s.row.owner == Some(w) ==> s.row.expires.Some? && s.row.expires.value <= s.now)
  }

  predicate Inv(cfg: Config, s: State) {
    && HeldFits(cfg, s)
    && (forall x :: x in s.log ==> x.claim in s.workers)
    && (forall w :: w in s.workers ==> WorkerFits(cfg, s, w))
  }

  // ---------- Every step keeps it ----------

  lemma {:induction false} AbsentSettledNothing(log: seq<Write>, w: nat)
    requires forall x :: x in log ==> x.claim != w
    ensures !LastSettled(log, w)
    decreases |log|
  {
    if log != [] {
      assert log[|log| - 1] in log;
      AbsentSettledNothing(log[..|log| - 1], w);
    }
  }

  lemma LogGrows(log: seq<Write>, x: Write, v: nat)
    ensures LastSettled(log + [x], v) == if x.claim == v then x.kind.Settlement? else LastSettled(log, v)
  {
    assert (log + [x])[..|log|] == log;
  }

  /** The log is as it was, or has one more update of this claim. */
  predicate LogStep(log: seq<Write>, after: seq<Write>, w: nat) {
    after == log || (|after| == |log| + 1 && after[..|log|] == log && after[|log|].claim == w)
  }

  lemma OthersInLog(log: seq<Write>, after: seq<Write>, w: nat, v: nat)
    requires LogStep(log, after, w) && v != w
    ensures LastSettled(after, v) == LastSettled(log, v)
  {
    if after != log { assert after == log + [after[|log|]]; LogGrows(log, after[|log|], v); }
  }

  lemma InvInitially(cfg: Config, now: int)
    ensures Inv(cfg, Initial(now))
  {}

  /** A step that writes at most one worker's record and lock, and changes the row only when
      no other worker has it securely. */
  predicate WritesOne(s: State, t: State, w: nat) {
    && s.now <= t.now
    && w in t.workers && t.workers.Keys == s.workers.Keys + {w}
    && (forall v :: v in s.workers && v != w ==> t.workers[v] == s.workers[v])
    && (t.held == s.held
      || ((s.held.Some? ==> s.held.value.worker == w) && (t.held.Some? ==> t.held.value.worker == w)))
    && LogStep(s.log, t.log, w)
    && (t.row == s.row || ((t.row.owner == None || t.row.owner == Some(w))
      && forall v :: v in s.workers && v != w ==> !Secure(s, v)))
  }

  lemma OtherWorkerFits(cfg: Config, s: State, t: State, w: nat, v: nat)
    requires WritesOne(s, t, w) && v in s.workers && v != w && WorkerFits(cfg, s, v)
    ensures WorkerFits(cfg, t, v)
  {
    OthersInLog(s.log, t.log, w, v);
  }

  lemma ClaimsOfLog(s: State, t: State, w: nat)
    requires WritesOne(s, t, w) && forall x :: x in s.log ==> x.claim in s.workers
    ensures forall x :: x in t.log ==> x.claim in t.workers
  {
    forall x | x in t.log ensures x.claim in t.workers {
      if x !in s.log { assert t.log == s.log + [t.log[|s.log|]]; }
    }
  }

  /** Such a step has that worker and the lock left to check. */
  lemma OneWorkerStep(cfg: Config, s: State, t: State, w: nat)
    requires Inv(cfg, s) && WritesOne(s, t, w) && HeldFits(cfg, t) && WorkerFits(cfg, t, w)
    ensures Inv(cfg, t)
  {
    forall v | v in t.workers && v != w
      ensures WorkerFits(cfg, t, v)
    {
      OtherWorkerFits(cfg, s, t, w, v);
    }
    ClaimsOfLog(s, t, w);
  }

  lemma LaterHeldFits(cfg: Config, s: State, elapsed: nat)
    requires HeldFits(cfg, s)
    ensures HeldFits(cfg, OnTick(s, elapsed))
  {}

  lemma LaterRenewalFits(cfg: Config, s: State, elapsed: nat, w: nat)
    requires w in s.workers && RenewalFits(cfg, s, w)
    ensures RenewalFits(cfg, OnTick(s, elapsed), w)
  {}

  /** Ownership is only ever lost by waiting. */
  lemma LaterIsBacked(s: State, elapsed: nat, w: nat)
    requires w in s.workers && (Secure(s, w) ==> Backed(s, w))
    ensures Secure(OnTick(s, elapsed), w) ==> Backed(OnTick(s, elapsed), w)
  {}

  lemma LaterWorkerFits(cfg: Config, s: State, elapsed: nat, w: nat)
    requires w in s.workers && WorkerFits(cfg, s, w)
    ensures WorkerFits(cfg, OnTick(s, elapsed), w)
  {
    LaterRenewalFits(cfg, s, elapsed, w);
    LaterIsBacked(s, elapsed, w);
  }

  lemma LaterWorkersFit(cfg: Config, s: State, elapsed: nat)
    requires forall w :: w in s.workers ==> WorkerFits(cfg, s, w)
    ensures forall w :: w in s.workers ==> WorkerFits(cfg, OnTick(s, elapsed), w)
  {
    forall w | w in s.workers
      ensures WorkerFits(cfg, OnTick(s, elapsed), w)
    {
      LaterWorkerFits(cfg, s, elapsed, w);
    }
  }

  lemma LaterKeepsInv(cfg: Config, s: State, elapsed: nat)
    requires Inv(cfg, s)
    ensures Inv(cfg, OnTick(s, elapsed))
  {
    LaterHeldFits(cfg, s, elapsed);
    LaterWorkersFit(cfg, s, elapsed);
  }

  lemma TickKeepsInv(cfg: Config, s: State, elapsed: nat)
    requires cfg.Valid() && Inv(cfg, s)
    ensures Inv(cfg, Step(cfg, s, Tick(elapsed)))
  {
    LaterKeepsInv(cfg, s, elapsed);
  }

  lemma ClaimKeepsInv(cfg: Config, s: State, w: nat, at: int, answered: bool)
    requires cfg.Valid() && Inv(cfg, s)
    ensures Inv(cfg, Step(cfg, s, Claim(w, at, answered)))
  {
    var t := OnClaim(cfg, s, w, at, answered);
    if t != s {
      forall v | v in s.workers ensures !Secure(s, v) {
        assert WorkerFits(cfg, s, v);
      }
      AbsentSettledNothing(s.log, w);
      OneWorkerStep(cfg, s, t, w);
    }
  }

  /** Aborting a worker, or ending it while no settling update is in flight, is always safe. */
  lemma AbortWith(cfg: Config, s: State, w: nat, view: View, phase: Phase)
    requires cfg.Valid() && Inv(cfg, s) && w in s.workers
    requires view.Aborted() && TimersFit(view) && view.deadline == s.workers[w].view.deadline
    requires (phase == s.workers[w].phase && (s.workers[w].view.closed ==> view.closed))
      || (phase == Ended && view.closed && s.workers[w].settle.None?)
    ensures Inv(cfg, Put(s, w, s.workers[w].(view := view, phase := phase)))
  {
    assert WorkerFits(cfg, s, w);
    OneWorkerStep(cfg, s, Put(s, w, s.workers[w].(view := view, phase := phase)), w);
  }

  /** A live worker whose heartbeat is not armed sends a renewal. */
  lemma RequestWith(cfg: Config, s: State, w: nat)
    requires cfg.Valid() && Inv(cfg, s) && w in s.workers && s.workers[w].renewal.None?
    requires s.workers[w].view.Live(s.now)
    ensures Inv(cfg, Put(s, w, s.workers[w].(view := s.workers[w].view.(heartbeatAt := None),
      renewal := Some(Request(Renewal, s.now, Sent)))))
  {
    assert WorkerFits(cfg, s, w);
    OneWorkerStep(cfg, s, Put(s, w, s.workers[w].(view := s.workers[w].view.(heartbeatAt := None),
      renewal := Some(Request(Renewal, s.now, Sent)))), w);
  }

  lemma FirstRenewalKeepsInv(cfg: Config, s: State, w: nat)
    requires cfg.Valid() && Inv(cfg, s)
    ensures Inv(cfg, Step(cfg, s, FirstRenewal(w)))
  {
    if w in s.workers && s.workers[w].phase == Starting && s.workers[w].renewal.None? {
      assert WorkerFits(cfg, s, w);
      if s.workers[w].view.Live(s.now) { RequestWith(cfg, s, w); }
      else { AbortWith(cfg, s, w, Stop(Lose(s.workers[w].view)), Ended); }
    }
  }

  lemma HeartbeatKeepsInv(cfg: Config, s: State, w: nat)
    requires cfg.Valid() && Inv(cfg, s)
    ensures Inv(cfg, Step(cfg, s, Heartbeat(w)))
  {
    if w in s.workers && s.workers[w].view.heartbeatAt.Some? {
      assert WorkerFits(cfg, s, w);
      if s.workers[w].view.Live(s.now) { RequestWith(cfg, s, w); }
      else { AbortWith(cfg, s, w, Lose(s.workers[w].view), s.workers[w].phase); }
    }
  }

  lemma ExecuteWrites(cfg: Config, s: State, w: nat, renewal: bool, at: int)
    requires Inv(cfg, s) && w in s.workers && WorkerFits(cfg, s, w)
    ensures WritesOne(s, OnExecute(s, w, renewal, at), w) && HeldFits(cfg, OnExecute(s, w, renewal, at))
  {}

  lemma ExecuteFits(cfg: Config, s: State, w: nat, renewal: bool, at: int)
    requires w in s.workers && WorkerFits(cfg, s, w)
    ensures WorkerFits(cfg, OnExecute(s, w, renewal, at), w)
  {}

  lemma ExecuteKeepsInv(cfg: Config, s: State, w: nat, renewal: bool, at: int)
    requires cfg.Valid() && Inv(cfg, s)
    ensures Inv(cfg, Step(cfg, s, Execute(w, renewal, at)))
  {
    if w in s.workers {
      ExecuteWrites(cfg, s, w, renewal, at);
      ExecuteFits(cfg, s, w, renewal, at);
      OneWorkerStep(cfg, s, OnExecute(s, w, renewal, at), w);
    }
  }

  lemma OthersAreNotSecure(cfg: Config, s: State)
    requires Inv(cfg, s) && s.held.Some?
    ensures forall v :: v in s.workers && v != s.held.value.worker ==> !Secure(s, v)
  {
    forall v | v in s.workers && v != s.held.value.worker ensures !Secure(s, v) {
      assert WorkerFits(cfg, s, v);
    }
  }

  lemma SendCommitKeepsInv(cfg: Config, s: State)
    requires cfg.Valid() && Inv(cfg, s)
    ensures Inv(cfg, Step(cfg, s, SendCommit))
  {
    if s.held.Some? {
      assert WorkerFits(cfg, s, s.held.value.worker);
      OneWorkerStep(cfg, s, OnSendCommit(s), s.held.value.worker);
    }
  }

  lemma DecideWrites(cfg: Config, s: State, applied: bool)
    requires Inv(cfg, s) && s.held.Some? && WorkerFits(cfg, s, s.held.value.worker)
    ensures WritesOne(s, OnDecide(cfg, s, applied), s.held.value.worker)
  {
    OthersAreNotSecure(cfg, s);
  }

  lemma DecideFrees(cfg: Config, s: State, applied: bool)
    requires HeldFits(cfg, s)
    ensures HeldFits(cfg, OnDecide(cfg, s, applied))
  {}

  /** The requests of the worker whose update is decided. */
  lemma DecideFitsRequests(cfg: Config, s: State, applied: bool)
    requires cfg.Valid() && HeldFits(cfg, s) && s.held.Some? && WorkerFits(cfg, s, s.held.value.worker)
    ensures var t, w := OnDecide(cfg, s, applied), s.held.value.worker;
      w in t.workers && RenewalFits(cfg, t, w) && SettleFits(t, w) && LoopFits(t, w)
  {
    LogGrows(s.log, Write(s.held.value.worker, s.held.value.kind), s.held.value.worker);
  }

  /** What the row says of it afterwards: it is backed, or the row was handed over. */
  lemma DecideBacks(cfg: Config, s: State, applied: bool)
    requires cfg.Valid() && HeldFits(cfg, s) && s.held.Some? && WorkerFits(cfg, s, s.held.value.worker)
    ensures var t, w := OnDecide(cfg, s, applied), s.held.value.worker;
      && w in t.workers && t.now == s.now && t.workers[w].view == s.workers[w].view
      && (Secure(t, w) ==> Backed(t, w))
      && (HandedOver(t, w) && t.row.owner == Some(w) ==> t.row.expires.Some? && t.row.expires.value <= t.now)
  {
    LogGrows(s.log, Write(s.held.value.worker, s.held.value.kind), s.held.value.worker);
  }

  lemma DecideKeepsInv(cfg: Config, s: State, applied: bool)
    requires cfg.Valid() && Inv(cfg, s)
    ensures Inv(cfg, Step(cfg, s, Decide(applied)))
  {
    if s.held.Some? {
      var w := s.held.value.worker;
      assert WorkerFits(cfg, s, w);
      DecideWrites(cfg, s, applied);
      DecideFrees(cfg, s, applied);
      DecideFitsRequests(cfg, s, applied);
      DecideBacks(cfg, s, applied);
      OneWorkerStep(cfg, s, OnDecide(cfg, s, applied), w);
    }
  }

  /** The view a finished renewal leaves: aborted, or with both timers armed again. */
  predicate Rearmed(v: View) {
    TimersFit(v) && (v.Aborted() || (v.heartbeatAt.Some? && v.expiryAt == Some(v.deadline)))
  }

  lemma AnswerWith(cfg: Config, s: State, w: nat, view: View, phase: Phase)
    requires cfg.Valid() && Inv(cfg, s) && w in s.workers
    requires s.workers[w].renewal.Some? && s.workers[w].renewal.value.stage == Applied
    requires Rearmed(view) && (view.Aborted() || phase != Starting)
    requires phase == s.workers[w].phase
      || (s.workers[w].phase == Starting && (phase == Working || (phase == Ended && view.closed)))
    requires s.workers[w].view.closed ==> view.closed
    requires view.Aborted()
      || (s.workers[w].view.Live(s.now) && view.deadline == s.workers[w].renewal.value.started + cfg.leaseMs)
    requires view.Aborted() ==> view.deadline == s.workers[w].view.deadline
    ensures Inv(cfg, Put(s, w, s.workers[w].(view := view, renewal := None, phase := phase)))
  {
    assert WorkerFits(cfg, s, w);
    OneWorkerStep(cfg, s, Put(s, w, s.workers[w].(view := view, renewal := None, phase := phase)), w);
  }

  lemma AnswerKeepsInv(cfg: Config, s: State, w: nat)
    requires cfg.Valid() && Inv(cfg, s)
    ensures Inv(cfg, Step(cfg, s, RenewalAnswered(w)))
  {
    if w in s.workers && s.workers[w].renewal.Some? && s.workers[w].renewal.value.stage == Applied {
      var x := s.workers[w];
      assert WorkerFits(cfg, s, w);
      var view := Renewed(cfg, x.view, x.renewal.value.started, s.now);
      if x.phase != Starting {
        AnswerWith(cfg, s, w, view, x.phase);
      } else if view.Aborted() {
        AnswerWith(cfg, s, w, Stop(view), Ended);
      } else {
        AnswerWith(cfg, s, w, view, Working);
      }
    }
  }

  lemma FailureWith(cfg: Config, s: State, w: nat, view: View, phase: Phase)
    requires cfg.Valid() && Inv(cfg, s) && w in s.workers && s.workers[w].renewal.Some?
    requires Rearmed(view) && view.deadline == s.workers[w].view.deadline
    requires view.Live(s.now) ==> s.workers[w].view.Live(s.now)
    requires if s.workers[w].phase == Starting then phase == Ended && view.closed else phase == s.workers[w].phase
    requires s.workers[w].view.closed ==> view.closed
    ensures Inv(cfg, Put(s.(held := Forsake(s.held, w, true)), w,
      s.workers[w].(view := view, renewal := None, phase := phase)))
  {
    assert WorkerFits(cfg, s, w);
    var t := Put(s.(held := Forsake(s.held, w, true)), w,
      s.workers[w].(view := view, renewal := None, phase := phase));
    OneWorkerStep(cfg, s, t, w);
  }

  lemma FailureKeepsInv(cfg: Config, s: State, w: nat, error: ErrorClass)
    requires cfg.Valid() && Inv(cfg, s)
    ensures Inv(cfg, Step(cfg, s, RenewalFailed(w, error)))
  {
    if w in s.workers && s.workers[w].renewal.Some? {
      var x := s.workers[w];
      assert WorkerFits(cfg, s, w);
      if x.phase == Starting {
        FailureWith(cfg, s, w, Stop(x.view), Ended);
      } else {
        FailureWith(cfg, s, w, RenewFailed(cfg, x.view, error, s.now), x.phase);
      }
    }
  }

  lemma ReturnKeepsInv(cfg: Config, s: State, w: nat)
    requires cfg.Valid() && Inv(cfg, s)
    ensures Inv(cfg, Step(cfg, s, OperationReturned(w)))
  {
    if w in s.workers && s.workers[w].phase == Working {
      var x := s.workers[w];
      assert WorkerFits(cfg, s, w);
      if x.view.Live(s.now) { OneWorkerStep(cfg, s, Put(s, w, x.(phase := Preparing)), w); }
      else { AbortWith(cfg, s, w, Stop(Lose(x.view)), Ended); }
    }
  }

  lemma ThrowKeepsInv(cfg: Config, s: State, w: nat)
    requires cfg.Valid() && Inv(cfg, s)
    ensures Inv(cfg, Step(cfg, s, PreparationThrew(w)))
  {
    if w in s.workers && s.workers[w].phase == Preparing {
      assert WorkerFits(cfg, s, w);
      OneWorkerStep(cfg, s, OnPreparationThrew(s, w), w);
    }
  }

  lemma EndingKeepsInv(cfg: Config, s: State, w: nat)
    requires cfg.Valid() && Inv(cfg, s)
    ensures Inv(cfg, Step(cfg, s, Expiry(w)))
    ensures Inv(cfg, Step(cfg, s, StopWorker(w)))
    ensures Inv(cfg, Step(cfg, s, Leave(w)))
  {
    if w in s.workers {
      var x := s.workers[w];
      assert WorkerFits(cfg, s, w);
      AbortWith(cfg, s, w, Lose(x.view), x.phase);
      AbortWith(cfg, s, w, Stop(x.view), x.phase);
      if x.settle.None? { AbortWith(cfg, s, w, Stop(x.view), Ended); }
    }
  }

  lemma SendSettleKeepsInv(cfg: Config, s: State, w: nat, settle: Settle)
    requires cfg.Valid() && Inv(cfg, s)
    ensures Inv(cfg, Step(cfg, s, SendSettle(w, settle)))
  {
    if w in s.workers {
      assert WorkerFits(cfg, s, w);
      var t := OnSendSettle(s, w, settle);
      assert HeldFits(cfg, t) && SettleFits(t, w) && LoopFits(t, w);
      OneWorkerStep(cfg, s, t, w);
    }
  }

  lemma SettleAnswerKeepsInv(cfg: Config, s: State, w: nat)
    requires cfg.Valid() && Inv(cfg, s)
    ensures Inv(cfg, Step(cfg, s, SettleAnswered(w)))
  {
    if w in s.workers {
      assert WorkerFits(cfg, s, w);
      OneWorkerStep(cfg, s, OnSettleAnswered(s, w), w);
    }
  }

  lemma FailedSettleWrites(cfg: Config, s: State, w: nat)
    requires Inv(cfg, s) && w in s.workers && WorkerFits(cfg, s, w)
    ensures WritesOne(s, OnSettleFailed(s, w), w) && HeldFits(cfg, OnSettleFailed(s, w))
  {}

  lemma FailedSettleFits(cfg: Config, s: State, w: nat)
    requires w in s.workers && WorkerFits(cfg, s, w) && HeldFits(cfg, s)
    ensures WorkerFits(cfg, OnSettleFailed(s, w), w)
  {}

  lemma SettleFailureKeepsInv(cfg: Config, s: State, w: nat)
    requires cfg.Valid() && Inv(cfg, s)
    ensures Inv(cfg, Step(cfg, s, SettleFailed(w)))
  {
    if w in s.workers {
      FailedSettleWrites(cfg, s, w);
      FailedSettleFits(cfg, s, w);
      OneWorkerStep(cfg, s, OnSettleFailed(s, w), w);
    }
  }

  lemma StorageKeepsInv(cfg: Config, s: State, a: Action)
    requires cfg.Valid() && Inv(cfg, s)
    requires a.Tick? || a.Claim? || a.Execute? || a.SendCommit? || a.Decide?
    ensures Inv(cfg, Step(cfg, s, a))
  {
    match a
    case Tick(elapsed) => TickKeepsInv(cfg, s, elapsed);
    case Claim(w, at, answered) => ClaimKeepsInv(cfg, s, w, at, answered);
    case Execute(w, renewal, at) => ExecuteKeepsInv(cfg, s, w, renewal, at);
    case SendCommit => SendCommitKeepsInv(cfg, s);
    case Decide(applied) => DecideKeepsInv(cfg, s, applied);
  }

  lemma RenewalKeepsInv(cfg: Config, s: State, a: Action)
    requires cfg.Valid() && Inv(cfg, s)
    requires a.FirstRenewal? || a.Heartbeat? || a.RenewalAnswered? || a.RenewalFailed?
    ensures Inv(cfg, Step(cfg, s, a))
  {
    match a
    case FirstRenewal(w) => FirstRenewalKeepsInv(cfg, s, w);
    case Heartbeat(w) => HeartbeatKeepsInv(cfg, s, w);
    case RenewalAnswered(w) => AnswerKeepsInv(cfg, s, w);
    case RenewalFailed(w, error) => FailureKeepsInv(cfg, s, w, error);
  }

  lemma OperationKeepsInv(cfg: Config, s: State, a: Action)
    requires cfg.Valid() && Inv(cfg, s)
    requires a.OperationReturned? || a.PreparationThrew? || a.SendSettle? || a.SettleAnswered? || a.SettleFailed?
      || a.Expiry? || a.StopWorker? || a.Leave?
    ensures Inv(cfg, Step(cfg, s, a))
  {
    match a
    case OperationReturned(w) => ReturnKeepsInv(cfg, s, w);
    case PreparationThrew(w) => ThrowKeepsInv(cfg, s, w);
    case SendSettle(w, settle) => SendSettleKeepsInv(cfg, s, w, settle);
    case SettleAnswered(w) => SettleAnswerKeepsInv(cfg, s, w);
    case SettleFailed(w) => SettleFailureKeepsInv(cfg, s, w);
    case Expiry(w) => EndingKeepsInv(cfg, s, w);
    case StopWorker(w) => EndingKeepsInv(cfg, s, w);
    case Leave(w) => EndingKeepsInv(cfg, s, w);
  }

  lemma StepKeepsInv(cfg: Config, s: State, a: Action)
    requires cfg.Valid() && Inv(cfg, s)
    ensures Inv(cfg, Step(cfg, s, a))
  {
    if a.Tick? || a.Claim? || a.Execute? || a.SendCommit? || a.Decide? {
      StorageKeepsInv(cfg, s, a);
    } else if a.FirstRenewal? || a.Heartbeat? || a.RenewalAnswered? || a.RenewalFailed? {
      RenewalKeepsInv(cfg, s, a);
    } else {
      OperationKeepsInv(cfg, s, a);
    }
  }

  // ---------- What holds over every run ----------

  lemma {:induction false} RunKeepsInv(cfg: Config, s: State, actions: seq<Action>)
    requires cfg.Valid() && Inv(cfg, s)
    ensures Inv(cfg, Run(cfg, s, actions))
    decreases |actions|
  {
    if actions != [] {
      StepKeepsInv(cfg, s, actions[0]);
      RunKeepsInv(cfg, Step(cfg, s, actions[0]), actions[1..]);
    }
  }


  ghost predicate Reaches(cfg: Config, s: State, t: State) { exists actions :: Run(cfg, s, actions) == t }

  lemma ReachedFits(cfg: Config, start: int, s: State)
    requires cfg.Valid() && Reaches(cfg, Initial(start), s)
    ensures Inv(cfg, s)
  {
    var actions :| Run(cfg, Initial(start), actions) == s;
    InvInitially(cfg, start);
    RunKeepsInv(cfg, Initial(start), actions);
  }

  /** Lease exclusivity, in every state that claims, renewals, lost answers, late commits and
      expiries can lead to. A claim that still acts under its lease has the row behind it,
      naming it and expiring no earlier than its own deadline, unless the last update applied
      for it settled the job; and exactly then it has not. Of all the others there is one at
      most. */
  lemma OneOwnerAtATime(cfg: Config, start: int, s: State, v: nat, w: nat)
    requires cfg.Valid() && Reaches(cfg, Initial(start), s)
    ensures Owns(s, v) ==> (Backed(s, v) <==> !HandedOver(s, v))
    ensures Owns(s, v) && Owns(s, w) && !HandedOver(s, v) && !HandedOver(s, w) ==> v == w
  {
    ReachedFits(cfg, start, s);
    if v in s.workers { assert WorkerFits(cfg, s, v); }
    if w in s.workers { assert WorkerFits(cfg, s, w); }
  }

  /** Ownership is extended by exactly one event: a renewal the database applied and answered
      before the old deadline; the new deadline counts from when that renewal was sent, and
      never moves back. */
  lemma OnlyAnsweredRenewalsExtend(cfg: Config, start: int, s: State, w: nat)
    requires cfg.Valid() && Reaches(cfg, Initial(start), s) && w in s.workers
    ensures var t := Step(cfg, s, RenewalAnswered(w));
      && s.workers[w].view.deadline <= t.workers[w].view.deadline
      && (t.workers[w].view.deadline != s.workers[w].view.deadline ==>
        && s.now < s.workers[w].view.deadline
        && !s.workers[w].view.Aborted()
        && s.workers[w].renewal.value.stage == Applied
        && t.workers[w].view.deadline == s.workers[w].renewal.value.started + cfg.leaseMs)
  {
    ReachedFits(cfg, start, s);
    assert WorkerFits(cfg, s, w);
  }

  /** Everything else, a failure, an uncertain COMMIT, a late answer, another claim's answer,
      leaves the deadline alone, and a stopped or lost lease stays so. */
  lemma NothingElseExtends(cfg: Config, s: State, a: Action, w: nat)
    requires w in s.workers
    ensures w in Step(cfg, s, a).workers
    ensures a != RenewalAnswered(w) ==> Step(cfg, s, a).workers[w].view.deadline == s.workers[w].view.deadline
    ensures s.workers[w].view.Aborted() ==> Step(cfg, s, a).workers[w].view.Aborted()
  {}

  /** At most one renewal is in flight: whenever a heartbeat timer is armed none is, and a
      live lease past its first renewal always has one of the two, so it never goes quiet. */
  lemma OneRenewalInFlight(cfg: Config, start: int, s: State, w: nat)
    requires cfg.Valid() && Reaches(cfg, Initial(start), s) && w in s.workers
    ensures var x := s.workers[w];
      && (x.view.heartbeatAt.Some? ==> x.renewal.None? && !x.view.Aborted() && x.view.heartbeatAt.value <= x.view.deadline)
      && (x.phase != Starting && !x.view.Aborted() ==>
        x.view.expiryAt == Some(x.view.deadline) && (x.view.heartbeatAt.Some? <==> x.renewal.None?))
  {
    ReachedFits(cfg, start, s);
    assert WorkerFits(cfg, s, w);
  }

  /** Nothing is written over another claim: whatever transaction is finally applied, even one
      whose client gave up long ago, applies to a row that still names its own claim, with an
      expiry later than the timestamp it used. No other claim owns the job then without having
      handed it over, and after a settlement none at all does. */
  lemma AppliedWritesAreFenced(cfg: Config, start: int, s: State, v: nat)
    requires cfg.Valid() && Reaches(cfg, Initial(start), s) && s.held.Some? && s.held.value.committing
    ensures var t := Step(cfg, s, Decide(true));
      && s.row.owner == Some(s.held.value.worker)
      && s.row.expires.Some? && s.held.value.at < s.row.expires.value
      && t.row == Updated(cfg, s.held.value.kind, s.row, s.held.value.at)
      && (Secure(s, v) ==> v == s.held.value.worker)
      && (Secure(t, v) ==> v == s.held.value.worker && s.held.value.kind == Renewal)
  {
    ReachedFits(cfg, start, s);
    StepKeepsInv(cfg, s, Decide(true));
    LogGrows(s.log, Write(s.held.value.worker, s.held.value.kind), s.held.value.worker);
    if v in s.workers { assert WorkerFits(cfg, s, v) && WorkerFits(cfg, Step(cfg, s, Decide(true)), v); }
  }

  /** A row changes hands only when everybody who still acts under a lease has handed it over. */
  lemma ClaimsTakeOnlyFreeRows(cfg: Config, start: int, s: State, w: nat, at: int, answered: bool, v: nat)
    requires cfg.Valid() && Reaches(cfg, Initial(start), s)
    requires Step(cfg, s, Claim(w, at, answered)) != s
    ensures Owns(s, v) ==> HandedOver(s, v)
  {
    ReachedFits(cfg, start, s);
    if v in s.workers { assert WorkerFits(cfg, s, v); }
  }
}
