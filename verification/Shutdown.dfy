/** Closing the service (src/service.mjs: card operations, `close`, `requestFatalShutdown`).

    Every stop and close may take any time, fail or throw; card operations start and settle
    meanwhile. `close` goes through its parts in one order whatever fails. */
module Shutdown {
  import opened Prelude

  datatype Part =
    | Http | Feishu | Catchup | Communication | UserInput | Forward | Executor
    | Media | Outbound | Diagnostics | Storage | Reporter

  /** Where the one `close` is. Each phase awaits what it has invoked. */
  datatype Phase =
    | Open
    | BeginStopThrew
    | Ingress
    | InUserInput
    | Draining(waiting: set<nat>, rejected: bool)
    | Executors(forward: Option<bool>, executor: Option<bool>)
    | InMedia | InOutbound | InDiagnostics | InStorage | InReporter
    | Finished

  datatype Fatal = NotRequested | Deferred | Racing | Restarted

  /** `calls` lists the parts whose stop or close was invoked, in order; `failures` counts what
      failed; `restarts` counts `onRestartRequired`. Operations are numbered as they start. */
  datatype State = State(accept: bool, ops: set<nat>, next: nat, phase: Phase, calls: seq<Part>, failures: nat,
                         fatal: Fatal, restarts: nat)

  datatype Action =
    | CardOperation
    | InternalOperation
    | OperationSettles(op: nat, ok: bool)
    | CallClose(beginStopThrows: bool)
    | Settles(ok: bool)
    | ExecutorSettles(ok: bool)
    | RequestFatal(storeReady: bool, beginStopThrows: bool)
    | BeginDeferred(beginStopThrows: bool)
    | Deadline

  /** The order the parts are closed in. */
  function Place(p: Part): nat {
    match p
    case Http => 0 case Feishu => 1 case Catchup => 2 case Communication => 3 case UserInput => 4
    case Forward => 5 case Executor => 6 case Media => 7 case Outbound => 8 case Diagnostics => 9
    case Storage => 10 case Reporter => 11
  }

  /** The first parts, each once, in that order. */
  predicate InOrder(calls: seq<Part>) { forall k :: 0 <= k < |calls| ==> Place(calls[k]) == k }

  /** How many parts have been invoked by a phase. */
  function Invoked(p: Phase): nat {
    match p
    case Open => 0
    case BeginStopThrew => 0
    case Ingress => 4
    case InUserInput => 5
    case Draining(_, _) => 5
    case Executors(_, _) => 7
    case InMedia => 8
    case InOutbound => 9
    case InDiagnostics => 10
    case InStorage => 11
    case InReporter => 12
    case Finished => 12
  }

  function Enter(s: State, p: Phase, invoked: seq<Part>, ok: bool): State {
    s.(phase := p, calls := s.calls + invoked, failures := if ok then s.failures else s.failures + 1)
  }

  /** `closing ??=`: the first call does it all; the four ingress stops go out before any wait. */
  function OnClose(s: State, beginStopThrows: bool): State {
    if !s.phase.Open? then s
    else
      var t := s.(accept := false);
      if beginStopThrows then t.(phase := BeginStopThrew, failures := s.failures + 1)
      else Enter(t, Ingress, [Http, Feishu, Catchup, Communication], true)
  }

  /** The drain loop's test. */
  function OnDrain(s: State): State {
    if s.ops == {} then Enter(s, Executors(None, None), [Forward, Executor], true)
    else s.(phase := Draining(s.ops, false))
  }

  function BothSettled(s: State, f: Option<bool>, e: Option<bool>): State {
    if f.None? || e.None? then s.(phase := Executors(f, e))
    else
      var t := Enter(s, InMedia, [Media], f.value);
      if e.value then t else t.(failures := t.failures + 1)
  }

  function OnSettles(s: State, ok: bool): State {
    match s.phase
    case Ingress => Enter(s, InUserInput, [UserInput], ok)
    case InUserInput => OnDrain(if ok then s else s.(failures := s.failures + 1))
    case Draining(waiting, rejected) =>
      if waiting * s.ops != {} then s else OnDrain(if rejected then s.(failures := s.failures + 1) else s)
    case Executors(None, e) => BothSettled(s, Some(ok), e)
    case InMedia => Enter(s, InOutbound, [Outbound], ok)
    case InOutbound => Enter(s, InDiagnostics, [Diagnostics], ok)
    case InDiagnostics => Enter(s, InStorage, [Storage], ok)
    case InStorage => Enter(s, InReporter, [Reporter], ok)
    case InReporter => OnRaceEnds(Enter(s, Finished, [], ok))
    case _ => s
  }

  function OnExecutorSettles(s: State, ok: bool): State {
    if s.phase.Executors? && s.phase.executor.None? then BothSettled(s, s.phase.forward, Some(ok)) else s
  }

  function OnOperation(s: State): State { s.(ops := s.ops + {s.next}, next := s.next + 1) }

  /** An operation settles; the drain counts a rejection among those it waits for. */
  function OnOperationSettles(s: State, op: nat, ok: bool): State {
    if op !in s.ops then s
    else
      var t := s.(ops := s.ops - {op});
      if s.phase.Draining? && op in s.phase.waiting && !ok then t.(phase := s.phase.(rejected := true)) else t
  }

  predicate CloseSettled(s: State) { s.phase.Finished? || s.phase.BeginStopThrew? }

  /** The race of the fatal path: `close` or the deadline, whichever is first. */
  function OnRaceEnds(s: State): State { if s.fatal.Racing? then s.(fatal := Restarted, restarts := s.restarts + 1) else s }

  function BeginRace(s: State, beginStopThrows: bool): State {
    var t := OnClose(s, beginStopThrows).(fatal := Racing);
    if CloseSettled(t) then OnRaceEnds(t) else t
  }

  /** Duplicate requests return the first one's promise. */
  function OnRequestFatal(s: State, storeReady: bool, beginStopThrows: bool): State {
    if !s.fatal.NotRequested? then s
    else if storeReady then BeginRace(s, beginStopThrows)
    else s.(fatal := Deferred)
  }

  function Step(s: State, a: Action): State {
    match a
    case CardOperation => if s.accept then OnOperation(s) else s
    case InternalOperation => OnOperation(s)
    case OperationSettles(op, ok) => OnOperationSettles(s, op, ok)
    case CallClose(throws) => OnClose(s, throws)
    case Settles(ok) => OnSettles(s, ok)
    case ExecutorSettles(ok) => OnExecutorSettles(s, ok)
    case RequestFatal(storeReady, throws) => OnRequestFatal(s, storeReady, throws)
    case BeginDeferred(throws) => if s.fatal.Deferred? then BeginRace(s, throws) else s
    case Deadline => OnRaceEnds(s)
  }

  function Run(s: State, actions: seq<Action>): State
    decreases |actions|
  {
    if actions == [] then s else Run(Step(s, actions[0]), actions[1..])
  }

  function Started(): State { State(true, {}, 0, Open, [], 0, NotRequested, 0) }

  // ---------- What every run keeps ----------

  predicate Inv(s: State) {
    && Ordered(s)
    && (s.accept <==> s.phase.Open?)
    && (s.phase.Open? ==> s.failures == 0)
    && (s.phase.BeginStopThrew? ==> s.failures > 0)
    && s.restarts == (if s.fatal.Restarted? then 1 else 0)
    && (s.fatal.Racing? ==> !s.phase.Open? && !CloseSettled(s))
  }

  predicate Ordered(s: State) { |s.calls| == Invoked(s.phase) && InOrder(s.calls) }

  lemma EnterOne(s: State, p: Phase, part: Part, ok: bool)
    requires InOrder(s.calls) && Place(part) == |s.calls| && Invoked(p) == |s.calls| + 1
    ensures Ordered(Enter(s, p, [part], ok))
  {}

  lemma EnterTwo(s: State, p: Phase, a: Part, b: Part, ok: bool)
    requires InOrder(s.calls) && Place(a) == |s.calls| && Place(b) == |s.calls| + 1 && Invoked(p) == |s.calls| + 2
    ensures Ordered(Enter(s, p, [a, b], ok))
  {}

  lemma CloseKeepsOrder(s: State, throws: bool)
    requires Ordered(s)
    ensures Ordered(OnClose(s, throws))
  {
    if s.phase.Open? && !throws {
      var t := Enter(s.(accept := false), Ingress, [Http, Feishu, Catchup, Communication], true);
      assert t.calls == [Http, Feishu, Catchup, Communication];
    }
  }

  lemma SettlesKeepsOrder(s: State, ok: bool)
    requires Ordered(s)
    ensures Ordered(OnSettles(s, ok))
  {
    match s.phase
    case Ingress => EnterOne(s, InUserInput, UserInput, ok);
    case InUserInput => EnterTwo(if ok then s else s.(failures := s.failures + 1), Executors(None, None), Forward, Executor, true);
    case Draining(_, rejected) =>
      EnterTwo(if rejected then s.(failures := s.failures + 1) else s, Executors(None, None), Forward, Executor, true);
    case Executors(_, _) => EnterOne(s, InMedia, Media, ok);
    case InMedia => EnterOne(s, InOutbound, Outbound, ok);
    case InOutbound => EnterOne(s, InDiagnostics, Diagnostics, ok);
    case InDiagnostics => EnterOne(s, InStorage, Storage, ok);
    case InStorage => EnterOne(s, InReporter, Reporter, ok);
    case InReporter => assert s.calls + [] == s.calls;
    case _ =>
  }

  lemma StepKeepsOrder(s: State, a: Action)
    requires Ordered(s)
    ensures Ordered(Step(s, a))
  {
    match a
    case CallClose(throws) => CloseKeepsOrder(s, throws);
    case RequestFatal(_, throws) => CloseKeepsOrder(s, throws);
    case BeginDeferred(throws) => CloseKeepsOrder(s, throws);
    case Settles(ok) => SettlesKeepsOrder(s, ok);
    case ExecutorSettles(ok) =>
      if s.phase.Executors? && s.phase.forward.Some? { EnterOne(s, InMedia, Media, s.phase.forward.value); }
    case _ =>
  }

  lemma StepKeepsInv(s: State, a: Action)
    requires Inv(s)
    ensures Inv(Step(s, a))
  {
    StepKeepsOrder(s, a);
  }

  lemma {:induction false} RunKeepsInv(s: State, actions: seq<Action>)
    requires Inv(s)
    ensures Inv(Run(s, actions))
    decreases |actions|
  {
    if actions != [] {
      StepKeepsInv(s, actions[0]);
      RunKeepsInv(Step(s, actions[0]), actions[1..]);
    }
  }

  /** Whatever fails and however long it takes, parts are invoked in one order, each once: all
      four ingress stops before anything is awaited, storage only after forward and executor.
      From the call of `close` on no card operation is admitted, and a finished close has
      invoked every part. The one failure that skips parts is a throwing `beginStop`, and it
      skips them all. */
  lemma PartsCloseInOrder(actions: seq<Action>)
    ensures var s := Run(Started(), actions);
      && InOrder(s.calls)
      && (!s.phase.Open? && !s.phase.BeginStopThrew? ==> |s.calls| >= 4)
      && (forall k :: 0 <= k < |s.calls| && s.calls[k] == Storage ==> s.calls[5] == Forward && s.calls[6] == Executor)
      && (s.phase.Finished? ==> |s.calls| == 12)
      && (!s.phase.Open? ==> (s.calls == [] <==> s.phase.BeginStopThrew?))
      && (!s.phase.Open? ==> Step(s, CardOperation) == s)
  {
    RunKeepsInv(Started(), actions);
    var s := Run(Started(), actions);
    forall k | 0 <= k < |s.calls| && s.calls[k] == Storage
      ensures s.calls[5] == Forward && s.calls[6] == Executor
    {
      assert k == 10 && Place(s.calls[5]) == 5 && Place(s.calls[6]) == 6;
    }
  }

  /** The executors are closed only with no card operation running, however many internal ones
      started while draining. */
  lemma DrainEndsEmpty(actions: seq<Action>, a: Action)
    requires var s := Run(Started(), actions); Step(s, a).phase.Executors? && !s.phase.Executors?
    ensures Run(Started(), actions).ops == {}
  {}

  // ---------- What close rejects for ----------

  function At(actions: seq<Action>, i: nat): State
    requires i <= |actions|
  {
    Run(Started(), actions[..i])
  }

  /** The drain loop takes all operations that run now, to wait for them. */
  predicate TakesSnapshot(s: State, a: Action) {
    a.Settles? && Step(s, a).phase.Draining? && (s.phase.InUserInput? || Step(s, a).phase != s.phase)
  }

  /** The operation ran when the drain loop took a snapshot, and still runs. */
  predicate WaitedFor(actions: seq<Action>, i: nat, op: nat)
    requires i <= |actions|
  {
    op in At(actions, i).ops && exists j :: 0 <= j < i && TakesSnapshot(At(actions, j), actions[j]) && op in At(actions, j).ops
  }

  /** `close` awaits one answer here. */
  predicate Awaits(p: Phase) {
    match p
    case Ingress => true
    case InUserInput => true
    case Executors(forward, _) => forward.None?
    case InMedia => true
    case InOutbound => true
    case InDiagnostics => true
    case InStorage => true
    case InReporter => true
    case _ => false
  }

  /** Something `close` waits for is answered with a failure at this point of the run. */
  predicate FailsAt(actions: seq<Action>, i: nat)
    requires i < |actions|
  {
    match actions[i]
    case Settles(ok) => !ok && Awaits(At(actions, i).phase)
    case ExecutorSettles(ok) => !ok && At(actions, i).phase.Executors? && At(actions, i).phase.executor.None?
    case OperationSettles(op, ok) => !ok && WaitedFor(actions, i, op)
    case _ => false
  }

  predicate Fails(actions: seq<Action>) { exists i :: 0 <= i < |actions| && FailsAt(actions, i) }

  lemma {:induction false} RunAppends(s: State, actions: seq<Action>, a: Action)
    ensures Run(s, actions + [a]) == Step(Run(s, actions), a)
    decreases |actions|
  {
    if actions == [] {
      assert ([] + [a])[1..] == [];
    } else {
      assert (actions + [a])[1..] == actions[1..] + [a];
      RunAppends(Step(s, actions[0]), actions[1..], a);
    }
  }

  lemma AtAppends(actions: seq<Action>, a: Action)
    ensures forall i :: 0 <= i <= |actions| ==> At(actions + [a], i) == At(actions, i)
    ensures At(actions, |actions|) == Run(Started(), actions)
    ensures At(actions + [a], |actions| + 1) == Step(Run(Started(), actions), a)
  {
    assert forall i :: 0 <= i <= |actions| ==> (actions + [a])[..i] == actions[..i];
    assert actions[..|actions|] == actions && (actions + [a])[..|actions| + 1] == actions + [a];
    RunAppends(Started(), actions, a);
  }

  /** A number is given out once. */
  predicate Numbered(s: State) {
    && (forall op :: op in s.ops ==> op < s.next)
    && (s.phase.Draining? ==> forall op :: op in s.phase.waiting ==> op < s.next)
  }

  lemma StepNumbers(s: State, a: Action)
    requires Numbered(s)
    ensures Numbered(Step(s, a)) && s.next <= Step(s, a).next
    ensures forall op :: op in Step(s, a).ops && op !in s.ops ==> op == s.next && Step(s, a).phase == s.phase
  {}

  lemma {:induction false} NumbersAreNew(actions: seq<Action>, i: nat)
    requires i <= |actions|
    ensures Numbered(Run(Started(), actions)) && Numbered(At(actions, i))
    ensures At(actions, i).next <= Run(Started(), actions).next
    decreases |actions|
  {
    assert actions[..|actions|] == actions;
    if actions != [] {
      var init, a := actions[..|actions| - 1], actions[|actions| - 1];
      assert actions == init + [a];
      AtAppends(init, a);
      NumbersAreNew(init, Min(i, |init|));
      StepNumbers(Run(Started(), init), a);
    }
  }

  /** The drain's record of whom it waits for is what the run alone tells. */
  predicate WaitFits(actions: seq<Action>) {
    var s := Run(Started(), actions);
    forall op :: op in s.ops ==> (WaitedFor(actions, |actions|, op) <==> s.phase.Draining? && op in s.phase.waiting)
  }

  /** A failure that was answered and is not counted yet. */
  predicate Uncounted(s: State) {
    || (s.phase.Draining? && s.phase.rejected)
    || (s.phase.Executors? && (s.phase.forward == Some(false) || s.phase.executor == Some(false)))
  }

  /** A failure that was answered is counted, now or when the wait it is part of ends. */
  predicate CountFits(actions: seq<Action>) {
    var s := Run(Started(), actions);
    !s.phase.BeginStopThrew? ==> (s.failures > 0 || Uncounted(s) <==> Fails(actions))
  }

  /** An operation that already ran goes on being waited for, or is taken up by a new snapshot. */
  lemma WaitedStays(init: seq<Action>, a: Action, op: nat)
    requires op in Run(Started(), init).ops && op in Run(Started(), init + [a]).ops
    ensures WaitedFor(init + [a], |init| + 1, op)
      <==> WaitedFor(init, |init|, op) || TakesSnapshot(Run(Started(), init), a)
  {
    AtAppends(init, a);
    RunAppends(Started(), init, a);
    var actions := init + [a];
    if TakesSnapshot(Run(Started(), init), a) {
      assert TakesSnapshot(At(actions, |init|), actions[|init|]) && op in At(actions, |init|).ops;
    }
    if WaitedFor(init, |init|, op) {
      var j :| 0 <= j < |init| && TakesSnapshot(At(init, j), init[j]) && op in At(init, j).ops;
      assert TakesSnapshot(At(actions, j), actions[j]) && op in At(actions, j).ops;
    }
  }

  lemma StepWaits(s: State, a: Action, op: nat)
    requires op in s.ops && op in Step(s, a).ops
    ensures Step(s, a).phase.Draining? && op in Step(s, a).phase.waiting
      <==> (s.phase.Draining? && op in s.phase.waiting) || TakesSnapshot(s, a)
  {}

  /** Nobody has waited yet for an operation that has just started. */
  lemma NewIsNotWaitedFor(init: seq<Action>, a: Action, op: nat)
    requires op == Run(Started(), init).next
    ensures !WaitedFor(init + [a], |init| + 1, op)
  {
    AtAppends(init, a);
    forall j | 0 <= j <= |init| ensures op !in At(init + [a], j).ops { NumbersAreNew(init, j); }
  }

  lemma WaitFitsAppend(init: seq<Action>, a: Action)
    requires WaitFits(init)
    ensures WaitFits(init + [a])
  {
    var s, t := Run(Started(), init), Run(Started(), init + [a]);
    RunAppends(Started(), init, a);
    NumbersAreNew(init, 0);
    StepNumbers(s, a);
    forall op | op in t.ops
      ensures WaitedFor(init + [a], |init| + 1, op) <==> t.phase.Draining? && op in t.phase.waiting
    {
      if op in s.ops {
        WaitedStays(init, a, op);
        StepWaits(s, a, op);
      } else {
        NewIsNotWaitedFor(init, a, op);
      }
    }
  }

  lemma FailsAppend(init: seq<Action>, a: Action)
    ensures Fails(init + [a]) <==> Fails(init) || FailsAt(init + [a], |init|)
  {
    var actions := init + [a];
    AtAppends(init, a);
    forall i | 0 <= i < |init| ensures FailsAt(actions, i) <==> FailsAt(init, i) {
      assert actions[i] == init[i];
      assert forall op :: WaitedFor(actions, i, op) <==> WaitedFor(init, i, op);
    }
    if Fails(init) {
      var i :| 0 <= i < |init| && FailsAt(init, i);
      assert FailsAt(actions, i);
    }
  }

  /** A last action that fails: the operation that settles is waited for as the drain recorded. */
  lemma LastFails(init: seq<Action>, a: Action)
    requires WaitFits(init)
    ensures var s := Run(Started(), init);
      FailsAt(init + [a], |init|) <==>
        || (a.Settles? && !a.ok && Awaits(s.phase))
        || (a.ExecutorSettles? && !a.ok && s.phase.Executors? && s.phase.executor.None?)
        || (a.OperationSettles? && !a.ok && a.op in s.ops && s.phase.Draining? && a.op in s.phase.waiting)
  {
    AtAppends(init, a);
    if a.OperationSettles? {
      assert forall j :: 0 <= j < |init| ==> (init + [a])[j] == init[j];
      assert WaitedFor(init + [a], |init|, a.op) <==> WaitedFor(init, |init|, a.op);
    }
  }

  lemma CountStep(s: State, a: Action, fails: bool)
    requires Inv(s) && !Step(s, a).phase.BeginStopThrew?
    requires fails <==>
      || (a.Settles? && !a.ok && Awaits(s.phase))
      || (a.ExecutorSettles? && !a.ok && s.phase.Executors? && s.phase.executor.None?)
      || (a.OperationSettles? && !a.ok && a.op in s.ops && s.phase.Draining? && a.op in s.phase.waiting)
    ensures !s.phase.BeginStopThrew?
    ensures (Step(s, a).failures > 0 || Uncounted(Step(s, a))) <==> (s.failures > 0 || Uncounted(s) || fails)
  {}

  lemma {:induction false} CountsEveryFailure(actions: seq<Action>)
    ensures WaitFits(actions) && CountFits(actions)
    decreases |actions|
  {
    if actions != [] {
      var init, a := actions[..|actions| - 1], actions[|actions| - 1];
      assert actions == init + [a];
      CountsEveryFailure(init);
      WaitFitsAppend(init, a);
      FailsAppend(init, a);
      LastFails(init, a);
      RunAppends(Started(), init, a);
      RunKeepsInv(Started(), init);
      if !Run(Started(), actions).phase.BeginStopThrew? {
        CountStep(Run(Started(), init), a, FailsAt(actions, |init|));
      }
    }
  }

  /** A failure never stops the closing and is never forgotten: a `close` that has finished rejects
      exactly when something it waited for, a stop, a close, or an operation that ran when the
      drain took stock, was answered with a failure. */
  lemma RejectsExactlyOnFailure(actions: seq<Action>)
    requires Run(Started(), actions).phase.Finished?
    ensures Run(Started(), actions).failures > 0 <==> Fails(actions)
  {
    CountsEveryFailure(actions);
  }

  /** The fatal path asks for a restart exactly once: however many requests come, and whether
      `close` settles, fails, throws or hangs past the deadline. */
  lemma RestartIsRequiredOnce(actions: seq<Action>, more: seq<Action>)
    requires Run(Started(), actions).fatal.Racing?
    ensures Run(Started(), actions).restarts == 0
    ensures var t := Run(Run(Started(), actions), more);
      && t.restarts <= 1
      && (Deadline in more || CloseSettled(t) ==> t.restarts == 1)
  {
    RunKeepsInv(Started(), actions);
    RaceEndsOnce(Run(Started(), actions), more);
  }

  lemma {:induction false} RaceEndsOnce(s: State, more: seq<Action>)
    requires Inv(s) && (s.fatal.Racing? || s.fatal.Restarted?)
    ensures var t := Run(s, more);
      && Inv(t) && (t.fatal.Racing? || t.fatal.Restarted?)
      && (s.fatal.Restarted? || Deadline in more ==> t.fatal.Restarted?)
    decreases |more|
  {
    if more != [] {
      StepKeepsInv(s, more[0]);
      RaceEndsOnce(Step(s, more[0]), more[1..]);
    }
  }
}
