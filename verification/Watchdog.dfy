/** The health watchdog (src/service.mjs, `inspectHealth` and `checkHealth`).

    A check that completes records, for the store and for the workers, since when they have
    been fatally unhealthy; a component that stays so for long enough asks for a restart. */
module Watchdog {
  import opened Prelude

  datatype Component = Store | Workers

  /** What a completed check found, and when. */
  datatype Check = Check(at: int, storeFatal: bool, workersFatal: bool)

  function FatalIn(c: Check, x: Component): bool { if x.Store? then c.storeFatal else c.workersFatal }

  // ---------- What a check finds ----------

  datatype Probe = Current | Failed(code: string)

  const TRANSIENT: set<string> := {"store_unavailable", "store_contention", "store_timeout", "commit_unknown"}

  function StoreFatal(writerHealthy: bool, probe: Probe): bool {
    !writerHealthy || (probe.Failed? && probe.code !in TRANSIENT)
  }

  function WorkersFatal(forwardRunning: bool, communicationRunning: bool): bool { !forwardRunning || !communicationRunning }

  // ---------- The history specification ----------

  /** The check at which the unbroken run of fatal checks that ends the history began. */
  function Start(history: seq<Check>, x: Component): (k: Option<nat>)
    ensures k.Some? ==> k.value < |history|
    decreases |history|
  {
    if history == [] || !FatalIn(history[|history| - 1], x) then None
    else
      var before := Start(history[..|history| - 1], x);
      if before.Some? then before else Some(|history| - 1)
  }

  /** That run is unbroken, and it began there. */
  lemma {:induction false} StartOfTheRun(history: seq<Check>, x: Component)
    ensures Start(history, x).Some? <==> history != [] && FatalIn(history[|history| - 1], x)
    ensures Start(history, x).Some? ==>
      var k := Start(history, x).value;
      && (forall i :: k <= i < |history| ==> FatalIn(history[i], x))
      && (k > 0 ==> !FatalIn(history[k - 1], x))
    decreases |history|
  {
    if history != [] { StartOfTheRun(history[..|history| - 1], x); }
  }

  predicate Timely(history: seq<Check>) { forall i, j :: 0 <= i < j < |history| ==> history[i].at <= history[j].at }

  /** How long the run that ends the history has lasted. */
  function Span(history: seq<Check>, x: Component): Option<int> {
    if Start(history, x).None? then None else Some(history[|history| - 1].at - history[Start(history, x).value].at)
  }

  predicate Lasted(history: seq<Check>, x: Component, exitMs: int) {
    Span(history, x).Some? && Span(history, x).value >= exitMs
  }

  predicate AnyLasted(history: seq<Check>, exitMs: int) { Lasted(history, Store, exitMs) || Lasted(history, Workers, exitMs) }

  // ---------- The watchdog's map ----------

  datatype Mark = Mark(component: Component, since: int)

  /** The map in insertion order, as iterating it sees it. */
  predicate Has(marks: seq<Mark>, x: Component) {
    (|marks| > 0 && marks[0].component == x) || (|marks| > 1 && marks[1].component == x)
  }

  function Without(marks: seq<Mark>, x: Component): seq<Mark> {
    if marks == [] then []
    else (if marks[0].component == x then [] else [marks[0]]) + Without(marks[1..], x)
  }

  function Record(marks: seq<Mark>, c: Check, x: Component): seq<Mark> {
    if !FatalIn(c, x) then Without(marks, x) else if Has(marks, x) then marks else marks + [Mark(x, c.at)]
  }

  /** The first mark that is old enough. */
  function FirstDue(marks: seq<Mark>, at: int, exitMs: int): Option<Mark> {
    if marks == [] then None
    else if at - marks[0].since >= exitMs then Some(marks[0])
    else FirstDue(marks[1..], at, exitMs)
  }

  /** What the map must be: the components now in a fatal run, the longer run first. */
  function Marks(history: seq<Check>): seq<Mark> {
    var a, b := Start(history, Store), Start(history, Workers);
    if a.None? && b.None? then []
    else if b.None? then [Mark(Store, history[a.value].at)]
    else if a.None? then [Mark(Workers, history[b.value].at)]
    else if a.value <= b.value then [Mark(Store, history[a.value].at), Mark(Workers, history[b.value].at)]
    else [Mark(Workers, history[b.value].at), Mark(Store, history[a.value].at)]
  }

  lemma StartGrows(history: seq<Check>, c: Check, x: Component)
    ensures Start(history + [c], x)
      == if !FatalIn(c, x) then None else if Start(history, x).Some? then Start(history, x) else Some(|history|)
  {
    assert (history + [c])[..|history|] == history;
  }

  lemma WithoutOne(m: Mark, x: Component)
    ensures Without([], x) == [] && Without([m], x) == if m.component == x then [] else [m]
  {
    assert [m][1..] == [];
  }

  lemma WithoutTwo(m: Mark, n: Mark, x: Component)
    ensures Without([m, n], x) == (if m.component == x then [] else [m]) + (if n.component == x then [] else [n])
  {
    assert [m, n][1..] == [n];
    WithoutOne(n, x);
  }

  lemma RecordNone(c: Check)
    ensures Record(Record([], c, Store), c, Workers)
      == (if c.storeFatal then [Mark(Store, c.at)] else []) + (if c.workersFatal then [Mark(Workers, c.at)] else [])
  {
    var n := Mark(Store, c.at);
    WithoutOne(n, Workers);
    assert [] + [n] == [n] && [n] + [] == [n];
    assert Record([], c, Store) == if c.storeFatal then [n] else [];
  }

  lemma RecordSingle(m: Mark, c: Check)
    ensures Record(Record([m], c, Store), c, Workers)
      == (if FatalIn(c, m.component) then [m] else [])
        + (if m.component.Store? && c.workersFatal then [Mark(Workers, c.at)] else [])
        + (if m.component.Workers? && c.storeFatal then [Mark(Store, c.at)] else [])
  {
    WithoutOne(m, Store);
    WithoutOne(m, Workers);
    var n := Mark(Store, c.at);
    WithoutTwo(m, n, Workers);
    WithoutOne(n, Workers);
    assert [m] + [n] == [m, n] && [] + [n] == [n];
    if m.component.Store? {
      assert Record([m], c, Store) == if c.storeFatal then [m] else [];
    } else {
      assert Record([m], c, Store) == if c.storeFatal then [m, n] else [m];
    }
  }

  lemma RecordPair(m: Mark, n: Mark, c: Check)
    requires m.component != n.component
    ensures Record(Record([m, n], c, Store), c, Workers)
      == (if FatalIn(c, m.component) then [m] else []) + (if FatalIn(c, n.component) then [n] else [])
  {
    WithoutTwo(m, n, Store);
    WithoutTwo(m, n, Workers);
    WithoutOne(m, Workers);
    WithoutOne(n, Workers);
    assert [] + [n] == [n] && [m] + [] == [m] && [m] + [n] == [m, n];
  }

  /** One check takes the map from one history to the next. */
  lemma RecordFollowsHistory(history: seq<Check>, c: Check)
    ensures Record(Record(Marks(history), c, Store), c, Workers) == Marks(history + [c])
  {
    StartGrows(history, c, Store);
    StartGrows(history, c, Workers);
    var m := Marks(history);
    if |m| == 0 {
      RecordNone(c);
    } else if |m| == 1 {
      assert m == [m[0]];
      RecordSingle(m[0], c);
    } else {
      assert m == [m[0], m[1]];
      RecordPair(m[0], m[1], c);
    }
  }

  lemma DueOfOne(m: Mark, at: int, exitMs: int)
    ensures FirstDue([m], at, exitMs) == if at - m.since >= exitMs then Some(m) else None
  {
    assert [m][1..] == [];
  }

  lemma DueOfTwo(m: Mark, n: Mark, at: int, exitMs: int)
    ensures FirstDue([m, n], at, exitMs)
      == if at - m.since >= exitMs then Some(m) else if at - n.since >= exitMs then Some(n) else None
  {
    assert [m, n][1..] == [n];
    DueOfOne(n, at, exitMs);
  }

  /** There is a mark to act on whenever a run is due, of one that is; it is one of the longest,
      unless the clock was set back. */
  lemma DueIsLongest(history: seq<Check>, exitMs: int)
    requires history != []
    ensures var due := FirstDue(Marks(history), history[|history| - 1].at, exitMs);
      && (due.Some? <==> AnyLasted(history, exitMs))
      && (due.Some? ==> Names(history, due.value.component, exitMs))
  {
    var a, b := Start(history, Store), Start(history, Workers);
    var m, at := Marks(history), history[|history| - 1].at;
    if a.Some? && b.Some? {
      assert m == [m[0], m[1]];
      DueOfTwo(m[0], m[1], at, exitMs);
    } else if a.Some? || b.Some? {
      assert m == [m[0]];
      DueOfOne(m[0], at, exitMs);
    }
  }

  /** The component named: its run is long enough, and with a clock that was not set back it is the
      longest. */
  predicate Names(history: seq<Check>, x: Component, exitMs: int) {
    Lasted(history, x, exitMs) && (Timely(history) ==> Longest(history, x, exitMs))
  }

  /** This component's run is long enough, and no other is longer. */
  predicate Longest(history: seq<Check>, x: Component, exitMs: int) {
    && Lasted(history, x, exitMs)
    && (Span(history, Store).Some? ==> Span(history, Store).value <= Span(history, x).value)
    && (Span(history, Workers).Some? ==> Span(history, Workers).value <= Span(history, x).value)
  }

  // ---------- Over every run of checks ----------

  /** `restarts` counts the restarts asked for; `stopping` refuses further checks. */
  datatype State = State(marks: seq<Mark>, stopping: bool, requested: Option<Mark>, restarts: nat)

  function Fresh(): State { State([], false, None, 0) }

  function OnCheck(s: State, c: Check, exitMs: int): State {
    if s.stopping then s
    else
      var marks := Record(Record(s.marks, c, Store), c, Workers);
      var due := FirstDue(marks, c.at, exitMs);
      if due.Some? then State(marks, true, due, s.restarts + 1) else s.(marks := marks)
  }

  function Checked(history: seq<Check>, exitMs: int): State
    decreases |history|
  {
    if history == [] then Fresh() else OnCheck(Checked(history[..|history| - 1], exitMs), history[|history| - 1], exitMs)
  }

  /** Some check up to the first `n` of the history had a run that had lasted. */
  predicate LastedBy(history: seq<Check>, n: nat, exitMs: int)
    requires n <= |history|
    decreases n
  {
    n > 0 && (AnyLasted(history[..n], exitMs) || LastedBy(history, n - 1, exitMs))
  }

  lemma {:induction false} LastedByPrefix(history: seq<Check>, c: Check, n: nat, exitMs: int)
    requires n <= |history|
    ensures LastedBy(history + [c], n, exitMs) == LastedBy(history, n, exitMs)
    decreases n
  {
    assert (history + [c])[..n] == history[..n];
    if n > 0 { LastedByPrefix(history, c, n - 1, exitMs); }
  }

  lemma {:induction false} CheckedFits(history: seq<Check>, exitMs: int)
    ensures var s := Checked(history, exitMs);
      && s.restarts == (if s.stopping then 1 else 0)
      && (s.stopping <==> LastedBy(history, |history|, exitMs))
      && (!s.stopping ==> s.marks == Marks(history))
    decreases |history|
  {
    if history != [] {
      var init, c := history[..|history| - 1], history[|history| - 1];
      assert init + [c] == history && history[..|history|] == history;
      CheckedFits(init, exitMs);
      LastedByPrefix(init, c, |init|, exitMs);
      RecordFollowsHistory(init, c);
      DueIsLongest(history, exitMs);
    }
  }

  /** The watchdog is its history: until it acts its map is exactly the fatal runs in progress,
      each with the time of the run's first check; it acts at the first completed check where
      some run has lasted long enough, never before and once only, whatever the clock did; and it
      names such a component, with a clock that was not set back the one whose run is longest. */
  lemma RestartsExactlyWhenARunLasts(history: seq<Check>, c: Check, exitMs: int)
    ensures var s, before := Checked(history + [c], exitMs), Checked(history, exitMs);
      && (s.restarts > before.restarts <==> AnyLasted(history + [c], exitMs) && !LastedBy(history, |history|, exitMs))
      && s.restarts <= 1
      && (!s.stopping ==> s.marks == Marks(history + [c]))
      && (s.restarts > before.restarts ==> s.requested.Some? && Names(history + [c], s.requested.value.component, exitMs))
  {
    var next := history + [c];
    assert next[..|next| - 1] == history && next[..|next|] == next;
    CheckedFits(next, exitMs);
    CheckedFits(history, exitMs);
    LastedByPrefix(history, c, |history|, exitMs);
    RecordFollowsHistory(history, c);
    DueIsLongest(next, exitMs);
  }

  /** A check as it is read from the components. */
  datatype Reading = Reading(at: int, writerHealthy: bool, probe: Probe, forwardRunning: bool, communicationRunning: bool)

  function CheckOf(r: Reading): Check {
    Check(r.at, StoreFatal(r.writerHealthy, r.probe), WorkersFatal(r.forwardRunning, r.communicationRunning))
  }

  function ChecksOf(readings: seq<Reading>): seq<Check> { seq(|readings|, i requires 0 <= i < |readings| => CheckOf(readings[i])) }

  /** However long the store is slow, contended or unavailable, with a healthy writer and running
      workers no restart is asked for. */
  lemma TransientTroubleNeverRestarts(readings: seq<Reading>, exitMs: int)
    requires forall i :: 0 <= i < |readings| ==>
      && readings[i].writerHealthy && readings[i].forwardRunning && readings[i].communicationRunning
      && (readings[i].probe.Failed? ==> readings[i].probe.code in TRANSIENT)
    ensures Checked(ChecksOf(readings), exitMs).restarts == 0
  {
    var history := ChecksOf(readings);
    CheckedFits(history, exitMs);
    NeverFatalNeverLasts(history, |history|, exitMs);
  }

  lemma {:induction false} NeverFatalNeverLasts(history: seq<Check>, n: nat, exitMs: int)
    requires n <= |history| && forall i :: 0 <= i < |history| ==> !history[i].storeFatal && !history[i].workersFatal
    ensures !LastedBy(history, n, exitMs)
    decreases n
  {
    if n > 0 {
      NeverFatalNeverLasts(history, n - 1, exitMs);
      StartOfTheRun(history[..n], Store);
      StartOfTheRun(history[..n], Workers);
    }
  }

  /** The variables of `startService` that the watchdog updates. */
  class HealthWatchdog {
    const unhealthyExitMs: int
    var unhealthySince: seq<Mark>
    var stopping: bool
    var requested: Option<Mark>
    var restarts: nat
    ghost var history: seq<Check>

    ghost predicate Valid()
      reads this
    {
      State(unhealthySince, stopping, requested, restarts) == Checked(history, unhealthyExitMs)
    }

    constructor (unhealthyExitMs: int)
      ensures Valid() && history == [] && this.unhealthyExitMs == unhealthyExitMs
    {
      this.unhealthyExitMs := unhealthyExitMs;
      unhealthySince, stopping, requested, restarts, history := [], false, None, 0, [];
    }

    /** The loop over both components. */
    method RecordComponents(c: Check)
      modifies this`unhealthySince
      ensures unhealthySince == Record(Record(old(unhealthySince), c, Store), c, Workers)
    {
      var components := [Store, Workers];
      var i := 0;
      while i < |components|
        invariant i <= |components|
        invariant unhealthySince == if i == 0 then old(unhealthySince)
          else if i == 1 then Record(old(unhealthySince), c, Store)
          else Record(Record(old(unhealthySince), c, Store), c, Workers)
      {
        var x := components[i];
        if !FatalIn(c, x) { unhealthySince := Without(unhealthySince, x); }
        else if !Has(unhealthySince, x) { unhealthySince := unhealthySince + [Mark(x, c.at)]; }
        i := i + 1;
      }
    }

    /** A check whose inspection completed; none is made once the service is stopping. */
    method CheckHealth(c: Check) returns (restart: Option<Mark>)
      requires Valid()
      modifies this
      ensures Valid() && history == old(history) + [c]
      ensures restart.Some? <==> AnyLasted(history, unhealthyExitMs) && !LastedBy(old(history), |old(history)|, unhealthyExitMs)
      ensures restart.Some? ==> Names(history, restart.value.component, unhealthyExitMs)
    {
      restart := None;
      RestartsExactlyWhenARunLasts(history, c, unhealthyExitMs);
      assert (history + [c])[..|history|] == history;
      history := history + [c];
      if stopping { return; }
      RecordComponents(c);
      restart := FirstDue(unhealthySince, c.at, unhealthyExitMs);
      if restart.Some? {
        stopping, requested := true, restart;
        restarts := restarts + 1;
      }
    }
  }
}
