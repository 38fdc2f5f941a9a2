/** Retiring the files of finished runs (src/core/resource-retirement.mjs) under the
    conversation guard, with the durable seal of src/storage/resources.mjs.

    One job at a time takes a row through guard, seal, deletion and completion. A native turn
    enters the guard and is then recorded as active in the database. The process may end at
    any step: the guard and the job are gone, rows, files and recorded activity stay. */
module Retirement {
  import opened Prelude
  import Guard = ConversationGuard

  datatype Kind = Input | Output

  datatype Seal = Pending | Sealed | Complete

  /** `gone` says the files are deleted; `eligible` is what the seal's own query finds. */
  datatype Resource = Resource(seal: Seal, gone: bool, eligible: bool)

  datatype Row = Row(conversation: string, input: Resource, output: Resource) {
    function Of(kind: Kind): Resource { if kind.Input? then input else output }

    function With(kind: Kind, r: Resource): Row { if kind.Input? then this.(input := r) else this.(output := r) }
  }

  datatype Pc = Sealing | Deleting | Completing

  datatype Job = Job(run: string, kind: Kind, pc: Pc)

  /** `active` is the recorded activity: the conversation of each unfinished turn. */
  datatype State = State(rows: map<string, Row>, guard: Guard.State, active: map<nat, string>, job: Option<Job>)

  datatype Deletion = Deleted | DeletedUnanswered | Retained

  datatype Action =
    | BeginJob(run: string, kind: Kind)
    | SealAnswer(lost: bool)
    | DeleteAnswer(result: Deletion)
    | CompleteAnswer(applied: bool)
    | TurnEnters(op: nat, conversation: string)
    | TurnWakes(op: nat, conversation: string)
    | TurnRecorded(op: nat, conversation: string)
    | TurnEnds(op: nat, conversation: string)
    | Recovered(op: nat)
    | Eligibility(run: string, kind: Kind, eligible: bool)
    | Crash

  predicate Busy(s: State, conversation: string) { exists op :: op in s.active && s.active[op] == conversation }

  function Update(s: State, run: string, kind: Kind, r: Resource): State
    requires run in s.rows
  {
    s.(rows := s.rows[run := s.rows[run].With(kind, r)])
  }

  function End(s: State): State {
    if s.job.Some? && s.job.value.run in s.rows then
      s.(job := None, guard := Guard.OnLeaveCleanup(s.guard, s.rows[s.job.value.run].conversation))
    else s.(job := None)
  }

  function Go(s: State, pc: Pc): State { if s.job.Some? then s.(job := Some(s.job.value.(pc := pc))) else s }

  /** Listed eligibility is no permission; entering the guard is all that is needed here. */
  function OnBeginJob(s: State, run: string, kind: Kind): State {
    if s.job.Some? || run !in s.rows then s
    else
      var guard := Guard.OnEnterCleanup(s.guard, s.rows[run].conversation);
      if guard == s.guard then s else s.(guard := guard, job := Some(Job(run, kind, Sealing)))
  }

  /** The seal rechecks activity, also when it only repeats itself. */
  function OnSealAnswer(s: State, lost: bool): State {
    if s.job.None? || s.job.value.pc != Sealing || s.job.value.run !in s.rows then s
    else
      var j := s.job.value;
      var r := s.rows[j.run].Of(j.kind);
      if r.seal == Complete || Busy(s, s.rows[j.run].conversation) then End(s)
      else if r.seal == Pending && !r.eligible then End(s)
      else
        var t := Update(s, j.run, j.kind, r.(seal := Sealed));
        if lost then End(t) else Go(t, Deleting)
  }

  function OnDeleteAnswer(s: State, result: Deletion): State {
    if s.job.None? || s.job.value.pc != Deleting || s.job.value.run !in s.rows then s
    else
      var j := s.job.value;
      var t := Update(s, j.run, j.kind, s.rows[j.run].Of(j.kind).(gone := true));
      match result
      case Deleted => Go(t, Completing)
      case DeletedUnanswered => End(t)
      case Retained => End(s)
  }

  function OnCompleteAnswer(s: State, applied: bool): State {
    if s.job.None? || s.job.value.pc != Completing || s.job.value.run !in s.rows then s
    else
      var j := s.job.value;
      var r := s.rows[j.run].Of(j.kind);
      if applied && r.seal != Pending then End(Update(s, j.run, j.kind, r.(seal := Complete))) else End(s)
  }

  function Step(s: State, a: Action): State {
    match a
    case BeginJob(run, kind) => OnBeginJob(s, run, kind)
    case SealAnswer(lost) => OnSealAnswer(s, lost)
    case DeleteAnswer(result) => OnDeleteAnswer(s, result)
    case CompleteAnswer(applied) => OnCompleteAnswer(s, applied)
    case TurnEnters(op, c) => s.(guard := Guard.OnEnterNative(s.guard, c, op))
    case TurnWakes(op, c) => s.(guard := Guard.OnWake(s.guard, c, op))
    case TurnRecorded(op, c) =>
      if op in Guard.HeldBy(s.guard, c).inside && op !in s.active then s.(active := s.active[op := c]) else s
    case TurnEnds(op, c) =>
      if op in Guard.HeldBy(s.guard, c).inside then
        s.(active := s.active - {op}, guard := Guard.OnLeaveNative(s.guard, c, op))
      else s
    case Recovered(op) => s.(active := s.active - {op})
    case Eligibility(run, kind, eligible) =>
      if run in s.rows then Update(s, run, kind, s.rows[run].Of(kind).(eligible := eligible)) else s
    case Crash => s.(guard := Guard.Empty(), job := None)
  }

  function Run(s: State, actions: seq<Action>): State
    decreases |actions|
  {
    if actions == [] then s else Run(Step(s, actions[0]), actions[1..])
  }

  /** Finished and unfinished runs whose files are all still there. */
  ghost predicate Initial(s: State) {
    && s.job.None? && s.guard == Guard.Empty()
    && forall run :: run in s.rows ==> Untouched(s.rows[run].input) && Untouched(s.rows[run].output)
  }

  predicate Untouched(r: Resource) { r.seal == Pending && !r.gone }

  // ---------- The invariant ----------

  predicate ResourceFits(r: Resource) { (r.gone ==> r.seal != Pending) && (r.seal == Complete ==> r.gone) }

  predicate JobFits(s: State, j: Job) {
    && j.run in s.rows
    && Guard.HeldBy(s.guard, s.rows[j.run].conversation).cleaning
    && (j.pc != Sealing ==> !Busy(s, s.rows[j.run].conversation) && s.rows[j.run].Of(j.kind).seal != Pending)
    && (j.pc == Deleting ==> s.rows[j.run].Of(j.kind).seal == Sealed)
    && (j.pc == Completing ==> s.rows[j.run].Of(j.kind).gone)
  }

  ghost predicate Inv(s: State) {
    && Guard.Inv(s.guard)
    && (forall run :: run in s.rows ==> ResourceFits(s.rows[run].input) && ResourceFits(s.rows[run].output))
    && (s.job.Some? ==> JobFits(s, s.job.value))
  }

  lemma GuardStep(g: Guard.State, a: Guard.Action)
    requires Guard.Inv(g)
    ensures Guard.Inv(Guard.Step(g, a))
  {
    Guard.StepKeepsInv(g, a);
  }

  lemma BeginKeepsInv(s: State, run: string, kind: Kind)
    requires Inv(s)
    ensures Inv(OnBeginJob(s, run, kind))
  {
    if run in s.rows { GuardStep(s.guard, Guard.EnterCleanup(s.rows[run].conversation)); }
  }

  lemma SealKeepsInv(s: State, lost: bool)
    requires Inv(s)
    ensures Inv(OnSealAnswer(s, lost))
  {
    if s.job.Some? { GuardStep(s.guard, Guard.LeaveCleanup(s.rows[s.job.value.run].conversation)); }
  }

  lemma DeleteKeepsInv(s: State, result: Deletion)
    requires Inv(s)
    ensures Inv(OnDeleteAnswer(s, result))
  {
    if s.job.Some? { GuardStep(s.guard, Guard.LeaveCleanup(s.rows[s.job.value.run].conversation)); }
  }

  lemma CompleteKeepsInv(s: State, applied: bool)
    requires Inv(s)
    ensures Inv(OnCompleteAnswer(s, applied))
  {
    if s.job.Some? { GuardStep(s.guard, Guard.LeaveCleanup(s.rows[s.job.value.run].conversation)); }
  }

  lemma TurnStepKeepsInv(s: State, a: Action)
    requires Inv(s) && (a.TurnEnters? || a.TurnWakes? || a.TurnRecorded? || a.TurnEnds?)
    ensures Inv(Step(s, a))
  {
    GuardStep(s.guard, Guard.EnterNative(a.conversation, a.op));
    GuardStep(s.guard, Guard.Wake(a.conversation, a.op));
    GuardStep(s.guard, Guard.LeaveNative(a.conversation, a.op));
    if s.job.Some? {
      var c := s.rows[s.job.value.run].conversation;
      var t := Step(s, a);
      assert Guard.Fits(s.guard, c);
      assert forall op :: op in t.active && t.active[op] == c ==> op in s.active && s.active[op] == c;
    }
  }

  lemma StepKeepsInv(s: State, a: Action)
    requires Inv(s)
    ensures Inv(Step(s, a))
  {
    if a.BeginJob? { BeginKeepsInv(s, a.run, a.kind); }
    else if a.SealAnswer? { SealKeepsInv(s, a.lost); }
    else if a.DeleteAnswer? { DeleteKeepsInv(s, a.result); }
    else if a.CompleteAnswer? { CompleteKeepsInv(s, a.applied); }
    else if a.TurnEnters? || a.TurnWakes? || a.TurnRecorded? || a.TurnEnds? {
      TurnStepKeepsInv(s, a);
    } else if a.Recovered? && s.job.Some? {
      var t := Step(s, a);
      assert forall op :: op in t.active ==> op in s.active && t.active[op] == s.active[op];
    }
  }

  lemma {:induction false} RunKeepsInv(s: State, actions: seq<Action>)
    requires Inv(s)
    ensures Inv(Run(s, actions))
    decreases |actions|
  {
    if actions != [] {
      StepKeepsInv(s, actions[0]);
      RunKeepsInv(Step(s, actions[0]), actions[1..]);
    }
  }

  // ---------- What holds over every run ----------

  /** How one step may change a row. */
  predicate RowMoves(r: Resource, u: Resource) {
    && (r.gone ==> u.gone) && (u.seal == Complete ==> u.gone)
    && (r.seal == Complete ==> u.seal == Complete) && (r.seal == Sealed ==> u.seal != Pending)
  }

  predicate RowStepFits(s: State, t: State, run: string, kind: Kind, deleting: bool) {
    && run in s.rows && run in t.rows && t.rows[run].conversation == s.rows[run].conversation
    && RowMoves(s.rows[run].Of(kind), t.rows[run].Of(kind))
    && (t.rows[run].Of(kind).gone && !s.rows[run].Of(kind).gone ==>
      deleting && s.job == Some(Job(run, kind, Deleting)))
  }

  lemma SealMovesRows(s: State, lost: bool, run: string, kind: Kind)
    requires Inv(s) && run in s.rows
    ensures RowStepFits(s, OnSealAnswer(s, lost), run, kind, false)
  {}

  lemma DeleteMovesRows(s: State, result: Deletion, run: string, kind: Kind)
    requires Inv(s) && run in s.rows
    ensures RowStepFits(s, OnDeleteAnswer(s, result), run, kind, true)
  {}

  lemma CompleteMovesRows(s: State, applied: bool, run: string, kind: Kind)
    requires Inv(s) && run in s.rows
    ensures RowStepFits(s, OnCompleteAnswer(s, applied), run, kind, false)
  {}

  lemma StepMovesRows(s: State, a: Action, run: string, kind: Kind)
    requires Inv(s) && run in s.rows
    ensures RowStepFits(s, Step(s, a), run, kind, a.DeleteAnswer?)
  {
    match a
    case SealAnswer(lost) => SealMovesRows(s, lost, run, kind);
    case DeleteAnswer(result) => DeleteMovesRows(s, result, run, kind);
    case CompleteAnswer(applied) => CompleteMovesRows(s, applied, run, kind);
    case _ =>
  }

  /** Files of a run go only after its durable seal, while cleanup has its conversation alone
      and no activity of that conversation is recorded; completion is recorded only after the
      files are gone; and no step takes back a deletion, a seal or a completion. */
  lemma FilesGoOnlyWhenSealedAndIdle(s0: State, actions: seq<Action>, a: Action, run: string, kind: Kind)
    requires Initial(s0) && run in s0.rows
    ensures var s := Run(s0, actions);
      var t := Step(s, a);
      && run in s.rows && run in t.rows && RowMoves(s.rows[run].Of(kind), t.rows[run].Of(kind))
      && (t.rows[run].Of(kind).gone && !s.rows[run].Of(kind).gone ==>
        var o := Guard.HeldBy(s.guard, s.rows[run].conversation);
        && s.rows[run].Of(kind).seal == Sealed
        && o.cleaning && o.inside == {}
        && !Busy(s, s.rows[run].conversation))
  {
    InitialFits(s0);
    RunKeepsInv(s0, actions);
    RowsStay(s0, actions, run);
    var s := Run(s0, actions);
    StepMovesRows(s, a, run, kind);
    assert Guard.Fits(s.guard, s.rows[run].conversation);
  }

  lemma InitialFits(s: State)
    requires Initial(s)
    ensures Inv(s)
  {
    assert Guard.Inv(Guard.Empty());
  }

  lemma {:induction false} RowsStay(s: State, actions: seq<Action>, run: string)
    requires run in s.rows
    ensures run in Run(s, actions).rows
    decreases |actions|
  {
    if actions != [] { RowsStay(Step(s, actions[0]), actions[1..], run); }
  }

  /** One undisturbed retirement of a row, its deletion not retained. */
  function Retire(s: State, run: string, kind: Kind): State {
    Step(Step(Step(Step(s, BeginJob(run, kind)), SealAnswer(false)), DeleteAnswer(Deleted)), CompleteAnswer(true))
  }

  /** The state of an attempt that has entered the guard. */
  function Attempt(s: State, run: string, kind: Kind, r: Resource, pc: Pc): State
    requires run in s.rows
  {
    Update(s, run, kind, r).(guard := Guard.OnEnterCleanup(s.guard, s.rows[run].conversation), job := Some(Job(run, kind, pc)))
  }

  lemma AttemptEnds(s: State, run: string, kind: Kind, r: Resource, pc: Pc)
    requires Guard.Inv(s.guard) && s.job.None? && run in s.rows
    requires Guard.HeldBy(s.guard, s.rows[run].conversation) == Guard.Occupancy({}, {}, false)
    ensures var t := End(Attempt(s, run, kind, r, pc));
      && t.job.None? && t.rows == s.rows[run := s.rows[run].With(kind, r)] && t.active == s.active
      && Guard.HeldBy(t.guard, s.rows[run].conversation) == Guard.Occupancy({}, {}, false)
  {
    assert Guard.Fits(s.guard, s.rows[run].conversation);
  }

  lemma AttemptRuns(s: State, run: string, kind: Kind)
    requires Inv(s) && s.job.None? && run in s.rows && !Busy(s, s.rows[run].conversation)
    requires Guard.HeldBy(s.guard, s.rows[run].conversation) == Guard.Occupancy({}, {}, false)
    requires s.rows[run].Of(kind).seal == Pending ==> s.rows[run].Of(kind).eligible
    ensures var r := s.rows[run].Of(kind);
      Retire(s, run, kind) == End(Attempt(s, run, kind, Resource(Complete, true, r.eligible),
        if r.seal == Complete then Sealing else Completing))
  {
    var r := s.rows[run].Of(kind);
    assert Guard.Fits(s.guard, s.rows[run].conversation);
    assert s.rows[run].With(kind, r) == s.rows[run];
    assert s.rows[run := s.rows[run]] == s.rows;
    assert Step(s, BeginJob(run, kind)) == Attempt(s, run, kind, r, Sealing);
    if r.seal != Complete {
      SealsThenDeletes(s, run, kind);
    }
  }

  lemma AttemptUpdates(s: State, run: string, kind: Kind, r: Resource, q: Resource, pc: Pc)
    requires run in s.rows
    ensures var t := Attempt(s, run, kind, r, pc);
      && run in t.rows && t.rows[run].Of(kind) == r && t.rows[run].conversation == s.rows[run].conversation
      && t.active == s.active && t.job == Some(Job(run, kind, pc))
      && Update(t, run, kind, q) == Attempt(s, run, kind, q, pc)
  {
    var t := Attempt(s, run, kind, r, pc);
    assert t.rows[run].With(kind, q) == s.rows[run].With(kind, q);
    assert t.rows[run := s.rows[run].With(kind, q)] == s.rows[run := s.rows[run].With(kind, q)];
  }

  lemma SealsThenDeletes(s: State, run: string, kind: Kind)
    requires run in s.rows && !Busy(s, s.rows[run].conversation)
    requires var r := s.rows[run].Of(kind); r.seal != Complete && (r.seal == Pending ==> r.eligible)
    ensures var r := s.rows[run].Of(kind);
      Step(Step(Step(Attempt(s, run, kind, r, Sealing), SealAnswer(false)), DeleteAnswer(Deleted)), CompleteAnswer(true))
        == End(Attempt(s, run, kind, Resource(Complete, true, r.eligible), Completing))
  {
    var r := s.rows[run].Of(kind);
    var q, g := r.(seal := Sealed), r.(seal := Sealed, gone := true);
    AttemptUpdates(s, run, kind, r, q, Sealing);
    assert Step(Attempt(s, run, kind, r, Sealing), SealAnswer(false)) == Attempt(s, run, kind, q, Deleting);
    AttemptUpdates(s, run, kind, q, g, Deleting);
    assert Step(Attempt(s, run, kind, q, Deleting), DeleteAnswer(Deleted)) == Attempt(s, run, kind, g, Completing);
    AttemptUpdates(s, run, kind, g, Resource(Complete, true, r.eligible), Completing);
  }

  /** A crash anywhere replays to the same end: from every state a run of crashes, lost answers
      and turns can leave, once the conversation is idle an undisturbed attempt completes any
      row that is sealed or eligible, and changes nothing else. */
  lemma RetirementReplays(s0: State, actions: seq<Action>, run: string, kind: Kind)
    requires Initial(s0) && run in s0.rows
    requires var s := Run(s0, actions);
      && s.job.None? && run in s.rows && !Busy(s, s.rows[run].conversation)
      && Guard.HeldBy(s.guard, s.rows[run].conversation) == Guard.Occupancy({}, {}, false)
      && (s.rows[run].Of(kind).seal == Pending ==> s.rows[run].Of(kind).eligible)
    ensures var s := Run(s0, actions);
      var t := Retire(s, run, kind);
      && t.job.None?
      && t.rows == s.rows[run := s.rows[run].With(kind, Resource(Complete, true, s.rows[run].Of(kind).eligible))]
      && Guard.HeldBy(t.guard, s.rows[run].conversation) == Guard.Occupancy({}, {}, false)
  {
    InitialFits(s0);
    RunKeepsInv(s0, actions);
    var s := Run(s0, actions);
    var r := s.rows[run].Of(kind);
    AttemptRuns(s, run, kind);
    AttemptEnds(s, run, kind, Resource(Complete, true, r.eligible), if r.seal == Complete then Sealing else Completing);
  }

  // ---------- Paging ----------

  const PAGE: nat := 25

  /** The rows of one kind that a pass finds to look at, by run id. */
  predicate Sorted(ids: seq<nat>) { forall i, j :: 0 <= i < j < |ids| ==> ids[i] < ids[j] }

  predicate Beyond(id: nat, cursor: Option<nat>) { cursor.None? || id > cursor.value }

  function After(ids: seq<nat>, cursor: Option<nat>): (r: seq<nat>)
    ensures |r| <= |ids|
    decreases |ids|
  {
    if ids == [] || Beyond(ids[0], cursor) then ids else After(ids[1..], cursor)
  }

  function Page(ids: seq<nat>, cursor: Option<nat>): seq<nat> {
    var rest := After(ids, cursor);
    if |rest| <= PAGE then rest else rest[..PAGE]
  }

  /** A full page leaves a cursor; a short one starts over. */
  function NextCursor(page: seq<nat>): Option<nat> { if |page| == PAGE then Some(page[PAGE - 1]) else None }

  /** The cursor after some passes. Every pass finds its own rows: those that were completed are
      gone, and finished runs have been added anywhere. */
  function CursorAt(lists: seq<seq<nat>>, cursor: Option<nat>, passes: nat): Option<nat>
    requires passes <= |lists|
    decreases passes
  {
    if passes == 0 then cursor else CursorAt(lists[1..], NextCursor(Page(lists[0], cursor)), passes - 1)
  }

  lemma {:induction false} AfterIsWhatIsBeyond(ids: seq<nat>, cursor: Option<nat>)
    requires Sorted(ids)
    ensures Sorted(After(ids, cursor))
    ensures forall id :: id in After(ids, cursor) <==> id in ids && Beyond(id, cursor)
    decreases |ids|
  {
    if ids != [] {
      assert forall id :: id in ids <==> id == ids[0] || id in ids[1..];
      if Beyond(ids[0], cursor) {
        assert forall i :: 0 <= i < |ids| ==> ids[i] >= ids[0];
      } else {
        AfterIsWhatIsBeyond(ids[1..], cursor);
      }
    }
  }

  /** A page shows the next 25 ids beyond the cursor, in order: all that it shows are listed there,
      and what is listed there and not shown comes after a full page. */
  lemma PagesInOrder(ids: seq<nat>, cursor: Option<nat>)
    requires Sorted(ids)
    ensures var page := Page(ids, cursor);
      && Sorted(page) && |page| <= PAGE
      && (forall id :: id in page ==> id in ids && Beyond(id, cursor))
      && (forall id :: id in ids && Beyond(id, cursor) && id !in page ==> |page| == PAGE && forall x :: x in page ==> x < id)
  {
    AfterIsWhatIsBeyond(ids, cursor);
    var rest, page := After(ids, cursor), Page(ids, cursor);
    forall id | id in rest && id !in page
      ensures |page| == PAGE && forall x :: x in page ==> x < id
    {
      var k :| 0 <= k < |rest| && rest[k] == id;
      assert forall m :: 0 <= m < |page| ==> page[m] == rest[m] && page[m] in page;
      assert |page| == PAGE <= k;
    }
  }

  /** The ids of a universe beyond the cursor. */
  function Ahead(universe: set<nat>, cursor: Option<nat>): set<nat> { set u | u in universe && Beyond(u, cursor) }

  predicate Within(lists: seq<seq<nat>>, universe: set<nat>) {
    forall i :: 0 <= i < |lists| ==> Sorted(lists[i]) && forall id :: id in lists[i] ==> id in universe
  }

  function SetOf(ids: seq<nat>): set<nat> { set id | id in ids }

  lemma {:induction false} DistinctCount(ids: seq<nat>)
    requires Sorted(ids)
    ensures |SetOf(ids)| == |ids|
    decreases |ids|
  {
    if ids != [] {
      var init, last := ids[..|ids| - 1], ids[|ids| - 1];
      DistinctCount(init);
      assert ids == init + [last];
      assert SetOf(ids) == SetOf(init) + {last};
      assert last !in init;
    }
  }

  lemma LastIsLargest(ids: seq<nat>)
    requires Sorted(ids) && ids != []
    ensures ids[|ids| - 1] in ids && forall id :: id in ids ==> id <= ids[|ids| - 1]
  {}

  /** A full page moves the cursor past 25 ids of the universe. */
  lemma FullPageAdvances(ids: seq<nat>, universe: set<nat>, cursor: Option<nat>)
    requires Sorted(ids) && (forall id :: id in ids ==> id in universe) && |Page(ids, cursor)| == PAGE
    ensures |Ahead(universe, NextCursor(Page(ids, cursor)))| + PAGE <= |Ahead(universe, cursor)|
  {
    PagesInOrder(ids, cursor);
    var page := Page(ids, cursor);
    DistinctCount(page);
    LastIsLargest(page);
    AheadOfShown(universe, cursor, SetOf(page), page[PAGE - 1]);
  }

  lemma AheadOfShown(universe: set<nat>, cursor: Option<nat>, shown: set<nat>, last: nat)
    requires last in shown && forall id :: id in shown ==> id in universe && Beyond(id, cursor) && id <= last
    ensures |Ahead(universe, Some(last))| + |shown| <= |Ahead(universe, cursor)|
  {
    var next := Ahead(universe, Some(last));
    assert next !! shown;
    assert |next + shown| == |next| + |shown|;
    SubsetIsFewer(next + shown, Ahead(universe, cursor));
  }

  lemma FewerPages(a: nat, b: nat)
    requires a + PAGE <= b
    ensures a / PAGE + 1 <= b / PAGE
  {}

  lemma WithinRest(lists: seq<seq<nat>>, universe: set<nat>)
    requires Within(lists, universe) && lists != []
    ensures Within(lists[1..], universe)
  {
    forall i | 0 <= i < |lists[1..]|
      ensures Sorted(lists[1..][i]) && forall id :: id in lists[1..][i] ==> id in universe
    {
      assert lists[1..][i] == lists[i + 1];
    }
  }

  /** From any cursor, paging starts over within one pass more than the universe has full pages
      ahead of it. */
  lemma {:induction false} PagingStartsOver(lists: seq<seq<nat>>, universe: set<nat>, cursor: Option<nat>) returns (n: nat)
    requires Within(lists, universe) && |lists| > |Ahead(universe, cursor)| / PAGE
    ensures 0 < n <= |Ahead(universe, cursor)| / PAGE + 1 && n <= |lists| && CursorAt(lists, cursor, n) == None
    decreases |lists|
  {
    var page := Page(lists[0], cursor);
    var next := NextCursor(page);
    assert CursorAt(lists[1..], next, 0) == next;
    if |page| < PAGE {
      n := 1;
    } else {
      PagesInOrder(lists[0], cursor);
      FullPageAdvances(lists[0], universe, cursor);
      FewerPages(|Ahead(universe, next)|, |Ahead(universe, cursor)|);
      WithinRest(lists, universe);
      n := PagingStartsOver(lists[1..], universe, next);
      n := n + 1;
    }
  }

  predicate Stays(lists: seq<seq<nat>>, id: nat) { forall i :: 0 <= i < |lists| ==> id in lists[i] }

  /** A row beyond the cursor that stays listed is shown before paging starts over. */
  lemma {:induction false} ReachedBeyond(lists: seq<seq<nat>>, universe: set<nat>, cursor: Option<nat>, id: nat) returns (n: nat)
    requires Within(lists, universe) && Stays(lists, id) && Beyond(id, cursor)
    requires |lists| > |Ahead(universe, cursor)| / PAGE
    ensures n <= |Ahead(universe, cursor)| / PAGE && n < |lists| && id in Page(lists[n], CursorAt(lists, cursor, n))
    decreases |lists|
  {
    var page := Page(lists[0], cursor);
    assert id in lists[0] && CursorAt(lists, cursor, 0) == cursor;
    PagesInOrder(lists[0], cursor);
    if id in page {
      n := 0;
    } else {
      var next := NextCursor(page);
      assert page[PAGE - 1] in page;
      FullPageAdvances(lists[0], universe, cursor);
      FewerPages(|Ahead(universe, next)|, |Ahead(universe, cursor)|);
      WithinRest(lists, universe);
      assert forall i :: 0 <= i < |lists[1..]| ==> lists[1..][i] == lists[i + 1];
      var m := ReachedBeyond(lists[1..], universe, next, id);
      assert lists[1..][m] == lists[m + 1];
      n := m + 1;
    }
  }

  lemma {:induction false} CursorAdds(lists: seq<seq<nat>>, cursor: Option<nat>, m: nat, n: nat)
    requires m + n <= |lists|
    ensures CursorAt(lists, cursor, m + n) == CursorAt(lists[m..], CursorAt(lists, cursor, m), n)
    decreases m
  {
    if m == 0 {
      assert lists[0..] == lists;
    } else {
      CursorAdds(lists[1..], NextCursor(Page(lists[0], cursor)), m - 1, n);
      assert lists[1..][m - 1..] == lists[m..];
    }
  }

  lemma WithinTail(lists: seq<seq<nat>>, universe: set<nat>, id: nat, m: nat)
    requires Within(lists, universe) && Stays(lists, id) && m <= |lists|
    ensures Within(lists[m..], universe) && Stays(lists[m..], id)
  {
    assert forall i :: 0 <= i < |lists[m..]| ==> lists[m..][i] == lists[m + i];
  }

  /** Every row is reached, though rows are completed and added between the passes: wherever paging
      stands, a row that stays to be looked at is on a page within twice as many passes as the
      run ids that occur fill pages. */
  lemma EveryRowIsReached(lists: seq<seq<nat>>, universe: set<nat>, cursor: Option<nat>, id: nat) returns (n: nat)
    requires Within(lists, universe) && Stays(lists, id) && |lists| >= 2 * (|universe| / PAGE + 1)
    ensures n < 2 * (|universe| / PAGE + 1) && id in Page(lists[n], CursorAt(lists, cursor, n))
  {
    AheadIsFewer(universe, cursor);
    AheadIsFewer(universe, None);
    if Beyond(id, cursor) {
      n := ReachedBeyond(lists, universe, cursor, id);
    } else {
      var m := PagingStartsOver(lists, universe, cursor);
      WithinTail(lists, universe, id, m);
      var k := ReachedBeyond(lists[m..], universe, None, id);
      CursorAdds(lists, cursor, m, k);
      assert lists[m..][k] == lists[m + k];
      n := m + k;
    }
  }

  lemma AheadIsFewer(universe: set<nat>, cursor: Option<nat>)
    ensures |Ahead(universe, cursor)| <= |universe| && |Ahead(universe, cursor)| / PAGE <= |universe| / PAGE
  {
    SubsetIsFewer(Ahead(universe, cursor), universe);
  }

  /** 25 rows, and the one that waits behind them. */
  function Crowded(id: nat, base: nat): seq<nat> { seq(PAGE, j requires 0 <= j < PAGE => PAGE * base + j) + [id] }

  /** Pass after pass finds 25 new rows before the one that waits. */
  function Crowd(id: nat, from: nat, n: nat): seq<seq<nat>> { seq(n, i requires 0 <= i < n => Crowded(id, from + i)) }

  function Passed(base: nat): Option<nat> { if base == 0 then None else Some(PAGE * base - 1) }

  lemma CrowdedPage(id: nat, base: nat)
    requires id >= PAGE * (base + 1)
    ensures Sorted(Crowded(id, base)) && id in Crowded(id, base)
    ensures id !in Page(Crowded(id, base), Passed(base))
    ensures NextCursor(Page(Crowded(id, base), Passed(base))) == Passed(base + 1)
  {
    var ids := Crowded(id, base);
    assert ids[PAGE] == id && ids[0] == PAGE * base;
    assert Beyond(ids[0], Passed(base));
    assert After(ids, Passed(base)) == ids && |ids| == PAGE + 1;
    assert forall j :: 0 <= j < PAGE ==> ids[..PAGE][j] == PAGE * base + j;
  }

  lemma {:induction false} CrowdCursor(id: nat, from: nat, n: nat, k: nat)
    requires id >= PAGE * (from + n) && k <= n
    ensures CursorAt(Crowd(id, from, n), Passed(from), k) == Passed(from + k)
    decreases n
  {
    if k > 0 {
      var lists := Crowd(id, from, n);
      assert PAGE * (from + 1) <= PAGE * (from + n);
      CrowdedPage(id, from);
      assert lists[0] == Crowded(id, from) && lists[1..] == Crowd(id, from + 1, n - 1);
      CrowdCursor(id, from + 1, n - 1, k - 1);
    }
  }

  /** The bound needs the universe: rows that keep being added between the cursor and a row keep it
      from being looked at for any number of passes. */
  lemma CrowdingDelays(id: nat, n: nat, k: nat)
    requires id >= PAGE * n && k < n
    ensures var lists := Crowd(id, 0, n);
      Sorted(lists[k]) && id in lists[k] && id !in Page(lists[k], CursorAt(lists, None, k))
  {
    assert PAGE * (k + 1) <= PAGE * n;
    CrowdedPage(id, k);
    CrowdCursor(id, 0, n, k);
  }
}
