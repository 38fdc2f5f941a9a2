/** The rewritten claim queries (src/storage/store.mjs, `HOOK_PREDECESSOR_SQL` and the outbox
    claim), and the order of hook deliveries they keep.

    A query is a function of the rows it sees; locked rows are not among them. */
module ClaimQueries {
  import opened Prelude

  // ---------- Hook predecessors ----------

  const STATUSES: set<string> :=
    {"pending", "running", "succeeded", "failed", "cancelled", "reply_pending", "unknown", "delivery_failed"}
  const TERMINAL: set<string> := {"succeeded", "failed", "cancelled"}
  /** Those a hook job is ever given. */
  const HOOK_STATUSES: set<string> := {"pending", "running", "succeeded", "failed", "reply_pending", "delivery_failed"}
  const BLOCKING: set<string> := set s | s in STATUSES && s !in TERMINAL

  datatype Job = Job(lane: string, sequence: nat, status: string)

  /** A lane is one conversation with one hook. */
  predicate Precedes(prior: Job, j: Job) { prior.lane == j.lane && prior.sequence < j.sequence }

  /** The former test: no earlier job of the lane whose status is not terminal. */
  predicate NoOpenPredecessor(jobs: map<nat, Job>, j: Job) {
    !exists i :: i in jobs && Precedes(jobs[i], j) && jobs[i].status !in TERMINAL
  }

  /** The probe for one status. */
  predicate ProbeFindsNone(jobs: map<nat, Job>, j: Job, status: string) {
    !exists i :: i in jobs && Precedes(jobs[i], j) && jobs[i].status == status
  }

  /** The rewritten test: one probe for every blocking status. */
  predicate ProbesFindNone(jobs: map<nat, Job>, j: Job) { forall s :: s in BLOCKING ==> ProbeFindsNone(jobs, j, s) }

  /** The rewriting is exact while the lane's earlier jobs have known statuses. */
  lemma ProbesEqualNotIn(jobs: map<nat, Job>, j: Job)
    requires forall i :: i in jobs && Precedes(jobs[i], j) ==> jobs[i].status in STATUSES
    ensures ProbesFindNone(jobs, j) <==> NoOpenPredecessor(jobs, j)
  {
    forall i | i in jobs && Precedes(jobs[i], j)
      ensures ProbesFindNone(jobs, j) ==> jobs[i].status in TERMINAL
    {
      assert ProbesFindNone(jobs, j) && jobs[i].status in BLOCKING ==> ProbeFindsNone(jobs, j, jobs[i].status);
    }
  }

  /** A job of any other status is precisely what the probes would miss. */
  lemma UnknownStatusIsMissed(jobs: map<nat, Job>, j: Job, i: nat)
    requires i in jobs && Precedes(jobs[i], j) && jobs[i].status !in STATUSES
    requires forall k :: k in jobs && Precedes(jobs[k], j) && k != i ==> jobs[k].status in TERMINAL
    ensures ProbesFindNone(jobs, j) && !NoOpenPredecessor(jobs, j)
  {}

  // ---------- Hook lanes over every run ----------

  datatype State = State(jobs: map<nat, Job>, started: set<nat>, next: nat)

  /** Everything that writes the status of a hook job. */
  datatype Action =
    | Register(id: nat, lane: string)
    | Claim(ids: set<nat>)
    | Finish(id: nat, outbox: bool)
    | Retry(id: nat, terminal: bool)
    | Delivered(id: nat, sent: bool)

  function SetStatus(s: State, id: nat, status: string): State
    requires id in s.jobs
  {
    s.(jobs := s.jobs[id := s.jobs[id].(status := status)])
  }

  /** Due, or running past its lease, and the probes find nothing before it. */
  predicate Claimable(s: State, id: nat) {
    && id in s.jobs && (s.jobs[id].status == "pending" || s.jobs[id].status == "running")
    && ProbesFindNone(s.jobs, s.jobs[id])
  }

  function OnClaim(s: State, ids: set<nat>): State {
    if exists id :: id in ids && !Claimable(s, id) then s
    else
      State(map i | i in s.jobs :: if i in ids then s.jobs[i].(status := "running") else s.jobs[i],
        s.started + ids, s.next)
  }

  function Step(s: State, a: Action): State {
    match a
    case Register(id, lane) =>
      if id in s.jobs then s else State(s.jobs[id := Job(lane, s.next, "pending")], s.started, s.next + 1)
    case Claim(ids) => OnClaim(s, ids)
    case Finish(id, outbox) =>
      if id in s.jobs && s.jobs[id].status == "running" then SetStatus(s, id, if outbox then "reply_pending" else "succeeded") else s
    case Retry(id, terminal) =>
      if id in s.jobs && s.jobs[id].status == "running" then SetStatus(s, id, if terminal then "failed" else "pending") else s
    case Delivered(id, sent) =>
      if id in s.jobs && s.jobs[id].status == "reply_pending" then SetStatus(s, id, if sent then "succeeded" else "delivery_failed")
      else s
  }

  function Run(s: State, actions: seq<Action>): State
    decreases |actions|
  {
    if actions == [] then s else Run(Step(s, actions[0]), actions[1..])
  }

  function Empty(): State { State(map[], {}, 0) }

  /** A job that has started has only terminal jobs before it in its lane. */
  predicate JobFits(s: State, i: nat)
    requires i in s.jobs
  {
    && s.jobs[i].status in HOOK_STATUSES && s.jobs[i].sequence < s.next
    && (i in s.started ==> NoOpenPredecessor(s.jobs, s.jobs[i]))
    && (i !in s.started ==> s.jobs[i].status == "pending")
  }

  predicate Inv(s: State) {
    && (forall i :: i in s.jobs ==> JobFits(s, i))
    && (forall i :: i in s.started ==> i in s.jobs)
    && (forall i, k :: i in s.jobs && k in s.jobs && s.jobs[i].sequence == s.jobs[k].sequence ==> i == k)
  }

  predicate JobMovesOn(a: Job, b: Job) {
    a.lane == b.lane && a.sequence == b.sequence && (a.status in TERMINAL ==> b.status == a.status)
  }

  /** Terminal statuses are final, so a test that finds nothing open keeps finding nothing. */
  predicate OnlyMovesOn(s: State, t: State) {
    && (forall i :: i in s.jobs ==> i in t.jobs && JobMovesOn(s.jobs[i], t.jobs[i]))
    && (forall i :: i in t.jobs && i !in s.jobs ==> t.jobs[i].sequence >= s.next)
  }

  lemma StillNoPredecessor(s: State, t: State, j: Job)
    requires OnlyMovesOn(s, t) && NoOpenPredecessor(s.jobs, j) && j.sequence < s.next
    ensures NoOpenPredecessor(t.jobs, j)
  {
    forall i | i in t.jobs && Precedes(t.jobs[i], j)
      ensures t.jobs[i].status in TERMINAL
    {
      if i in s.jobs { assert Precedes(s.jobs[i], j); }
    }
  }

  lemma ClaimedHaveNoPredecessor(s: State, i: nat)
    requires Inv(s) && Claimable(s, i)
    ensures NoOpenPredecessor(s.jobs, s.jobs[i])
  {
    forall k | k in s.jobs ensures s.jobs[k].status in STATUSES { assert JobFits(s, k); }
    ProbesEqualNotIn(s.jobs, s.jobs[i]);
  }

  lemma StatusMovesOn(s: State, id: nat, status: string)
    requires id in s.jobs && s.jobs[id].status !in TERMINAL
    ensures OnlyMovesOn(s, SetStatus(s, id, status))
  {}

  lemma ClaimMovesOn(s: State, ids: set<nat>)
    ensures OnlyMovesOn(s, OnClaim(s, ids))
  {
    if forall id :: id in ids ==> Claimable(s, id) {
      forall i | i in s.jobs ensures JobMovesOn(s.jobs[i], OnClaim(s, ids).jobs[i]) {}
    }
  }

  lemma StepMovesOn(s: State, a: Action)
    requires Inv(s)
    ensures OnlyMovesOn(s, Step(s, a))
    ensures s.started <= Step(s, a).started && s.next <= Step(s, a).next
  {
    if a.Claim? {
      ClaimMovesOn(s, a.ids);
    } else if !a.Register? && Step(s, a) != s {
      StatusMovesOn(s, a.id, Step(s, a).jobs[a.id].status);
    }
  }

  lemma StepKeepsInv(s: State, a: Action)
    requires Inv(s)
    ensures Inv(Step(s, a))
  {
    var t := Step(s, a);
    StepMovesOn(s, a);
    forall i | i in t.jobs
      ensures JobFits(t, i)
    {
      if i in s.jobs {
        assert JobFits(s, i);
        if i in s.started { StillNoPredecessor(s, t, s.jobs[i]); }
        else if i in t.started {
          ClaimedHaveNoPredecessor(s, i);
          StillNoPredecessor(s, t, s.jobs[i]);
        }
      }
    }
  }

  lemma {:induction false} RunKeepsInv(s: State, actions: seq<Action>)
    requires Inv(s)
    ensures Inv(Run(s, actions))
    decreases |actions|
  {
    if actions != [] {
      StepKeepsInv(s, actions[0]);
      RunKeepsInv(Step(s, actions[0]), actions[1..]);
    }
  }

  /** Over every run the probes decide what NOT IN would, and a lane's hook jobs are delivered
      one at a time in sequence order: a job starts only when all earlier ones of its lane have
      ended for good, and no two of a lane are running. */
  lemma LanesRunInOrder(actions: seq<Action>, i: nat, k: nat)
    requires var s := Run(Empty(), actions); i in s.jobs && k in s.jobs && s.jobs[i].lane == s.jobs[k].lane
    ensures var s := Run(Empty(), actions);
      && (ProbesFindNone(s.jobs, s.jobs[i]) <==> NoOpenPredecessor(s.jobs, s.jobs[i]))
      && (i in s.started && s.jobs[k].sequence < s.jobs[i].sequence ==> s.jobs[k].status in TERMINAL)
      && (s.jobs[i].status == "running" && s.jobs[k].status == "running" ==> i == k)
  {
    var s := Run(Empty(), actions);
    RunKeepsInv(Empty(), actions);
    assert JobFits(s, i) && JobFits(s, k);
    forall m | m in s.jobs && Precedes(s.jobs[m], s.jobs[i]) ensures s.jobs[m].status in STATUSES { assert JobFits(s, m); }
    ProbesEqualNotIn(s.jobs, s.jobs[i]);
    if i in s.started && s.jobs[k].sequence < s.jobs[i].sequence { assert Precedes(s.jobs[k], s.jobs[i]); }
    if k in s.started && s.jobs[i].sequence < s.jobs[k].sequence { assert Precedes(s.jobs[i], s.jobs[k]); }
  }

  /** The earlier job's delivery failed and the later one waits. */
  predicate StuckBehind(s: State, i: nat, k: nat) {
    && i in s.jobs && k in s.jobs && Precedes(s.jobs[i], s.jobs[k])
    && s.jobs[i].status == "delivery_failed" && s.jobs[k].status == "pending" && k !in s.started
  }

  lemma StaysStuck(s: State, a: Action, i: nat, k: nat)
    requires StuckBehind(s, i, k)
    ensures StuckBehind(Step(s, a), i, k)
  {
    assert "delivery_failed" in BLOCKING && !ProbeFindsNone(s.jobs, s.jobs[k], "delivery_failed");
  }

  /** A hook job whose delivery failed is not terminal, and nothing takes it out of that status:
      no later job of its lane ever starts. */
  lemma {:induction false} FailedDeliveryStopsItsLane(s: State, actions: seq<Action>, i: nat, k: nat)
    requires StuckBehind(s, i, k)
    ensures StuckBehind(Run(s, actions), i, k)
    decreases |actions|
  {
    if actions != [] {
      StaysStuck(s, actions[0], i, k);
      FailedDeliveryStopsItsLane(Step(s, actions[0]), actions[1..], i, k);
    }
  }

  /** Such a state is reached by two registrations and one delivery that fails for good. */
  lemma StuckIsReached(i: nat, k: nat, lane: string)
    requires i != k
    ensures StuckBehind(Run(Empty(), [Register(i, lane), Register(k, lane), Claim({i}), Finish(i, true), Delivered(i, false)]), i, k)
  {
    var registered := State(map[i := Job(lane, 0, "pending"), k := Job(lane, 1, "pending")], {}, 2);
    var claimed := State(map[i := Job(lane, 0, "running"), k := Job(lane, 1, "pending")], {i}, 2);
    var first := Step(Empty(), Register(i, lane));
    assert Step(first, Register(k, lane)) == registered;
    assert ProbesFindNone(registered.jobs, registered.jobs[i]);
    assert OnClaim(registered, {i}) == claimed;
    var done := SetStatus(claimed, i, "reply_pending");
    var actions := [Register(i, lane), Register(k, lane), Claim({i}), Finish(i, true), Delivered(i, false)];
    RunTwo(Empty(), actions);
    RunTwo(registered, actions[2..]);
    assert Step(claimed, Finish(i, true)) == done;
    assert actions[2..][2..] == [Delivered(i, false)] && [Delivered(i, false)][1..] == [];
    assert Run(done, [Delivered(i, false)]) == Run(Step(done, Delivered(i, false)), []) == SetStatus(done, i, "delivery_failed");
  }

  lemma RunTwo(s: State, actions: seq<Action>)
    requires |actions| >= 2
    ensures Run(s, actions) == Run(Step(Step(s, actions[0]), actions[1]), actions[2..])
  {
    assert actions[1..][1..] == actions[2..];
  }

  // ---------- Which pending jobs still get their turn ----------

  /** What stands before a job in its lane and has not ended for good. */
  function OpenBefore(s: State, k: nat): set<nat>
    requires k in s.jobs
  {
    set i | i in s.jobs && Precedes(s.jobs[i], s.jobs[k]) && s.jobs[i].status !in TERMINAL
  }

  /** A pending job may be claimed exactly when all earlier ones of its lane have ended for good. */
  lemma HeadIsClaimable(s: State, k: nat)
    requires Inv(s) && k in s.jobs && s.jobs[k].status == "pending"
    ensures Claimable(s, k) <==> OpenBefore(s, k) == {}
  {
    forall i | i in s.jobs ensures s.jobs[i].status in STATUSES { assert JobFits(s, i); }
    ProbesEqualNotIn(s.jobs, s.jobs[k]);
    if NoOpenPredecessor(s.jobs, s.jobs[k]) {
      assert forall i :: i !in OpenBefore(s, k);
    } else {
      var i :| i in s.jobs && Precedes(s.jobs[i], s.jobs[k]) && s.jobs[i].status !in TERMINAL;
      assert i in OpenBefore(s, k);
    }
  }

  lemma {:induction false} Earliest(s: State, ids: set<nat>) returns (p: nat)
    requires ids != {} && forall i :: i in ids ==> i in s.jobs
    ensures p in ids && forall i :: i in ids ==> s.jobs[p].sequence <= s.jobs[i].sequence
    decreases |ids|
  {
    p :| p in ids;
    if ids != {p} {
      var q := Earliest(s, ids - {p});
      assert forall i :: i in ids ==> i == p || i in ids - {p};
      if s.jobs[q].sequence < s.jobs[p].sequence { p := q; }
    }
  }

  /** How a job that is open and first is brought to its end. */
  function EndingOf(p: nat, status: string): seq<Action> {
    if status == "pending" then [Claim({p}), Finish(p, false)]
    else if status == "running" then [Finish(p, false)]
    else [Delivered(p, true)]
  }

  lemma EndingEnds(s: State, p: nat)
    requires Inv(s) && p in s.jobs && s.jobs[p].status !in TERMINAL && s.jobs[p].status != "delivery_failed"
    requires OpenBefore(s, p) == {}
    ensures var t := Run(s, EndingOf(p, s.jobs[p].status));
      t.jobs == s.jobs[p := s.jobs[p].(status := "succeeded")]
  {
    assert JobFits(s, p);
    var actions := EndingOf(p, s.jobs[p].status);
    if s.jobs[p].status == "pending" {
      HeadIsClaimable(s, p);
      var claimed := OnClaim(s, {p});
      assert claimed.jobs == s.jobs[p := s.jobs[p].(status := "running")];
      RunTwo(s, actions);
      assert actions[2..] == [];
    } else {
      assert actions[1..] == [];
      assert Run(s, actions) == Run(Step(s, actions[0]), []);
    }
  }

  lemma {:induction false} RunOnward(s: State, a: seq<Action>, b: seq<Action>)
    ensures Run(s, a + b) == Run(Run(s, a), b)
    decreases |a|
  {
    if a == [] {
      assert a + b == b;
    } else {
      assert (a + b)[1..] == a[1..] + b;
      RunOnward(Step(s, a[0]), a[1..], b);
    }
  }

  lemma EarliestIsHead(s: State, k: nat, p: nat)
    requires k in s.jobs && p in OpenBefore(s, k)
    requires forall i :: i in OpenBefore(s, k) ==> s.jobs[p].sequence <= s.jobs[i].sequence
    ensures OpenBefore(s, p) == {}
  {
    var nearer := OpenBefore(s, p) * OpenBefore(s, k);
    assert OpenBefore(s, p) == nearer;
  }

  lemma OneLessOpen(s: State, t: State, k: nat, p: nat)
    requires k in s.jobs && p in OpenBefore(s, k) && t.jobs == s.jobs[p := s.jobs[p].(status := "succeeded")]
    ensures k in t.jobs && t.jobs[k] == s.jobs[k] && OpenBefore(t, k) == OpenBefore(s, k) - {p}
    ensures forall i :: i in OpenBefore(t, k) ==> t.jobs[i].status == s.jobs[i].status
  {}

  lemma {:induction false} TurnComes(s: State, k: nat) returns (actions: seq<Action>)
    requires Inv(s) && k in s.jobs && s.jobs[k].status == "pending"
    requires forall i :: i in OpenBefore(s, k) ==> s.jobs[i].status != "delivery_failed"
    ensures var t := Run(s, actions); k in t.jobs && t.jobs[k].status == "running"
    decreases |OpenBefore(s, k)|
  {
    if OpenBefore(s, k) == {} {
      HeadIsClaimable(s, k);
      actions := [Claim({k})];
      assert actions[1..] == [];
      assert Run(s, actions) == Run(OnClaim(s, {k}), []);
    } else {
      var p := Earliest(s, OpenBefore(s, k));
      EarliestIsHead(s, k, p);
      EndingEnds(s, p);
      var ending := EndingOf(p, s.jobs[p].status);
      var t := Run(s, ending);
      RunKeepsInv(s, ending);
      OneLessOpen(s, t, k, p);
      var rest := TurnComes(t, k);
      RunOnward(s, ending, rest);
      actions := ending + rest;
    }
  }

  ghost predicate CanRun(s: State, k: nat) {
    exists actions :: var t := Run(s, actions); k in t.jobs && t.jobs[k].status == "running"
  }

  /** In every reachable state, a pending job of a lane can still come to run exactly if no delivery
      before it has failed; if one has, the job waits in every run. */
  lemma TurnComesExactly(before: seq<Action>, k: nat)
    requires var s := Run(Empty(), before); k in s.jobs && s.jobs[k].status == "pending"
    ensures var s := Run(Empty(), before);
      CanRun(s, k) <==> forall i :: i in s.jobs && Precedes(s.jobs[i], s.jobs[k]) ==> s.jobs[i].status != "delivery_failed"
  {
    var s := Run(Empty(), before);
    RunKeepsInv(Empty(), before);
    if i :| i in s.jobs && Precedes(s.jobs[i], s.jobs[k]) && s.jobs[i].status == "delivery_failed" {
      assert JobFits(s, k);
      assert StuckBehind(s, i, k);
      forall actions ensures StuckBehind(Run(s, actions), i, k) { FailedDeliveryStopsItsLane(s, actions, i, k); }
    } else {
      var actions := TurnComes(s, k);
    }
  }

  // ---------- The outbox branches ----------

  /** A row by its place in the claim order; ids are unique. */
  datatype Row = Row(created: nat, id: nat)

  predicate Before(a: Row, b: Row) { a.created < b.created || (a.created == b.created && a.id < b.id) }

  function Below(rows: set<Row>, x: Row): set<Row> { set y | y in rows && Before(y, x) }

  /** ORDER BY created_at, id LIMIT k. */
  function First(rows: set<Row>, k: nat): set<Row> { set x | x in rows && |Below(rows, x)| < k }

  /** The former query took the first k eligible rows; the rewritten one merges the first k of
      each branch and takes the first k of those. */
  function Merged(pending: set<Row>, unknown: set<Row>, k: nat): set<Row> { First(First(pending, k) + First(unknown, k), k) }

  lemma {:induction false} Latest(rows: set<Row>) returns (m: Row)
    requires rows != {}
    ensures m in rows && forall y :: y in rows ==> y == m || Before(y, m)
    decreases |rows|
  {
    var x :| x in rows;
    m := x;
    if rows != {x} {
      var n := Latest(rows - {x});
      assert forall y :: y in rows ==> y == x || y in rows - {x};
      if Before(x, n) { m := n; }
    }
  }

  /** Below any row, a branch's first k lose nothing that counts: k of them, or all. */
  lemma {:induction false} FirstKeepsEnoughBelow(rows: set<Row>, x: Row, k: nat)
    ensures |Below(First(rows, k), x)| >= Min(k, |Below(rows, x)|)
    decreases |Below(rows, x)|
  {
    var below := Below(rows, x);
    if below != {} {
      var m := Latest(below);
      assert Below(rows, m) == below - {m};
      if |below| <= k {
        forall y | y in below
          ensures y in Below(First(rows, k), x)
        {
          assert Below(rows, y) <= below - {y};
          SubsetIsFewer(Below(rows, y), below - {y});
        }
        SubsetIsFewer(below, Below(First(rows, k), x));
      } else {
        FirstKeepsEnoughBelow(rows, m, k);
        assert Below(First(rows, k), m) <= Below(First(rows, k), x);
        SubsetIsFewer(Below(First(rows, k), m), Below(First(rows, k), x));
      }
    }
  }

  lemma KeptIsAmongFirst(mine: set<Row>, other: set<Row>, x: Row, k: nat)
    requires x in First(mine, k) && mine !! other
    requires |Below(First(mine, k) + First(other, k), x)| < k
    ensures |Below(mine + other, x)| < k
  {
    var a, b := Below(First(mine, k), x), Below(First(other, k), x);
    assert Below(First(mine, k) + First(other, k), x) == a + b;
    assert Below(mine + other, x) == Below(mine, x) + Below(other, x);
    FirstKeepsEnoughBelow(mine, x, k);
    FirstKeepsEnoughBelow(other, x, k);
    assert a !! b && Below(mine, x) !! Below(other, x);
    assert |a + b| == |a| + |b|;
    assert |Below(mine, x) + Below(other, x)| == |Below(mine, x)| + |Below(other, x)|;
  }

  /** Merging bounded branches is exact: for any two disjoint sets of eligible rows and any limit
      it claims the rows the single query would. */
  lemma MergedBranchesAreExact(pending: set<Row>, unknown: set<Row>, k: nat)
    requires pending !! unknown
    ensures Merged(pending, unknown, k) == First(pending + unknown, k)
  {
    forall x | x in First(pending + unknown, k)
      ensures x in Merged(pending, unknown, k)
    {
      SubsetIsFewer(Below(pending, x), Below(pending + unknown, x));
      SubsetIsFewer(Below(unknown, x), Below(pending + unknown, x));
      SubsetIsFewer(Below(First(pending, k) + First(unknown, k), x), Below(pending + unknown, x));
    }
    forall x | x in Merged(pending, unknown, k)
      ensures x in First(pending + unknown, k)
    {
      if x in First(pending, k) {
        KeptIsAmongFirst(pending, unknown, x, k);
      } else {
        assert First(unknown, k) + First(pending, k) == First(pending, k) + First(unknown, k);
        assert unknown + pending == pending + unknown;
        KeptIsAmongFirst(unknown, pending, x, k);
      }
    }
  }

  /** Never more than k rows are claimed. */
  lemma {:induction false} FirstIsBounded(rows: set<Row>, k: nat)
    ensures |First(rows, k)| <= k
    ensures |rows| <= k ==> First(rows, k) == rows
  {
    var first := First(rows, k);
    if first != {} {
      var m := Latest(first);
      assert first <= Below(rows, m) + {m};
      SubsetIsFewer(first, Below(rows, m) + {m});
    }
    forall x | x in rows && |rows| <= k
      ensures x in first
    {
      assert Below(rows, x) <= rows - {x};
      SubsetIsFewer(Below(rows, x), rows - {x});
    }
  }
}
