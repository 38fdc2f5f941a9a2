/** The progress observer (src/channels/feishu/execution-card.mjs, `observeExecutionCard`).

    Each read returns rows from an overlapping stretch of the event table, so rows come again,
    late and out of order. A bounded set of row ids decides which are pushed to the card. */
module ProgressFeed {
  import opened Prelude

  const SEEN_LIMIT: nat := 500
  const OVERLAP: int := 10000
  const PAGE: nat := 100

  // ---------- The bounded set ----------

  /** The set in insertion order: a new id is added, and beyond the limit the oldest leaves. */
  function Remember(seen: seq<string>, id: string): seq<string> {
    if id in seen then seen
    else if |seen| < SEEN_LIMIT then seen + [id]
    else seen[1..] + [id]
  }

  /** `pushed` lists the ids taken up, each of which is pushed to the card at most once. */
  datatype Feed = Feed(seen: seq<string>, pushed: seq<string>)

  function Deliver(f: Feed, id: string): Feed {
    if id in f.seen then f else Feed(Remember(f.seen, id), f.pushed + [id])
  }

  function DeliverAll(f: Feed, ids: seq<string>): Feed
    decreases |ids|
  {
    if ids == [] then f else DeliverAll(Deliver(f, ids[0]), ids[1..])
  }

  predicate Distinct(s: seq<string>) { forall i, j :: 0 <= i < j < |s| ==> s[i] != s[j] }

  /** The last `n` of a sequence. */
  function Last(s: seq<string>, n: nat): seq<string> { if |s| <= n then s else s[|s| - n..] }

  /** The set holds exactly the last 500 pushed ids, no two alike. */
  predicate Fits(f: Feed) { f.seen == Last(f.pushed, SEEN_LIMIT) && Distinct(f.seen) }

  lemma DeliverFits(f: Feed, id: string)
    requires Fits(f)
    ensures Fits(Deliver(f, id))
  {}

  lemma {:induction false} DeliverAllFits(f: Feed, ids: seq<string>)
    requires Fits(f)
    ensures Fits(DeliverAll(f, ids)) && f.pushed <= DeliverAll(f, ids).pushed
    ensures |DeliverAll(f, ids).pushed| <= |f.pushed| + |ids|
    decreases |ids|
  {
    if ids != [] {
      DeliverFits(f, ids[0]);
      DeliverAllFits(Deliver(f, ids[0]), ids[1..]);
    }
  }

  /** What a stretch of deliveries pushed. */
  function PushedBy(f: Feed, ids: seq<string>): seq<string>
    requires Fits(f)
  {
    DeliverAllFits(f, ids);
    DeliverAll(f, ids).pushed[|f.pushed|..]
  }

  lemma {:induction false} PushedWereDelivered(f: Feed, ids: seq<string>)
    requires Fits(f)
    ensures forall x :: x in PushedBy(f, ids) ==> x in ids
    decreases |ids|
  {
    DeliverAllFits(f, ids);
    if ids != [] {
      var g := Deliver(f, ids[0]);
      DeliverFits(f, ids[0]);
      DeliverAllFits(g, ids[1..]);
      PushedWereDelivered(g, ids[1..]);
      forall x | x in PushedBy(f, ids)
        ensures x in ids
      {
        if x in PushedBy(g, ids[1..]) { assert x in ids[1..]; }
        else { assert x == ids[0]; }
      }
    }
  }

  /** What is followed by `since` is still among the last `n` exactly when `since` is shorter. */
  lemma AmongTheLast(before: seq<string>, id: string, since: seq<string>, n: nat)
    requires id !in since
    ensures id in Last(before + [id] + since, n) <==> |since| < n
  {
    var all := before + [id] + since;
    var last := Last(all, n);
    if |since| < n {
      assert last[|last| - |since| - 1] == all[|before|] == id;
    } else {
      assert forall k :: 0 <= k < |last| ==> last[k] == since[|since| - n + k];
    }
  }

  /** A row id that was just delivered is pushed again by a later delivery exactly when at least
      500 other rows were pushed in between. */
  lemma PushedAgainExactlyAfter500(f: Feed, id: string, between: seq<string>)
    requires Fits(f) && id !in between
    ensures var g := Deliver(f, id);
      && Fits(g)
      && (id !in f.seen ==>
        (Deliver(DeliverAll(g, between), id).pushed != DeliverAll(g, between).pushed <==> |PushedBy(g, between)| >= SEEN_LIMIT))
  {
    var g := Deliver(f, id);
    DeliverFits(f, id);
    DeliverAllFits(g, between);
    PushedWereDelivered(g, between);
    var h := DeliverAll(g, between);
    var since := PushedBy(g, between);
    if id !in f.seen {
      assert h.pushed == f.pushed + [id] + since;
      AmongTheLast(f.pushed, id, since, SEEN_LIMIT);
    }
  }

  /** So overlapping reads push a row at most once as long as fewer than 500 different rows are
      delivered between two deliveries of it. */
  lemma FewRowsBetweenNeverRepeat(f: Feed, id: string, between: seq<string>)
    requires Fits(f) && id !in f.seen && id !in between
    requires |(set x | x in between)| < SEEN_LIMIT
    ensures var h := DeliverAll(Deliver(f, id), between); Deliver(h, id) == h
  {
    var g := Deliver(f, id);
    PushedAgainExactlyAfter500(f, id, between);
    PushedWereDelivered(g, between);
    DeliverAllFits(g, between);
    var since := PushedBy(g, between);
    if |since| >= SEEN_LIMIT {
      var h := DeliverAll(g, between);
      var recent := Last(h.pushed, SEEN_LIMIT);
      assert forall k :: 0 <= k < |recent| ==> recent[k] == since[|since| - SEEN_LIMIT + k];
      assert forall x :: x in recent ==> x in since;
      DistinctCount(recent);
      SubsetIsFewer(set x | x in recent, set x | x in between);
    }
  }

  lemma {:induction false} DistinctCount(s: seq<string>)
    requires Distinct(s)
    ensures |(set x | x in s)| == |s|
    decreases |s|
  {
    if s != [] {
      var init, last := s[..|s| - 1], s[|s| - 1];
      DistinctCount(init);
      assert (set x | x in s) == (set x | x in init) + {last};
      assert last !in init;
    }
  }

  /** The limit is real: 500 different rows in between, and the same row is pushed again. */
  lemma ManyRowsBetweenRepeat(f: Feed, id: string, between: seq<string>)
    requires Fits(f) && id !in f.seen && id !in between && |between| == SEEN_LIMIT
    requires Distinct(between) && forall x :: x in between ==> x !in f.seen
    ensures var h := DeliverAll(Deliver(f, id), between); Deliver(h, id).pushed == h.pushed + [id]
  {
    var g := Deliver(f, id);
    DeliverFits(f, id);
    forall x | x in between ensures x !in g.seen {}
    NewIdsAreAllPushed(g, between);
    PushedAgainExactlyAfter500(f, id, between);
  }

  lemma {:induction false} NewIdsAreAllPushed(f: Feed, ids: seq<string>)
    requires Fits(f) && Distinct(ids) && forall x :: x in ids ==> x !in f.seen
    ensures Fits(f) && |PushedBy(f, ids)| == |ids|
    decreases |ids|
  {
    DeliverAllFits(f, ids);
    if ids != [] {
      var g := Deliver(f, ids[0]);
      assert ids[0] in ids;
      DeliverFits(f, ids[0]);
      forall x | x in ids[1..]
        ensures x !in g.seen
      {
        assert x in ids;
        var k :| 0 <= k < |ids[1..]| && ids[1..][k] == x;
        assert ids[k + 1] == x;
      }
      NewIdsAreAllPushed(g, ids[1..]);
      DeliverAllFits(g, ids[1..]);
    }
  }

  // ---------- The observer ----------

  /** What a row carries, and what pushing it to the card does. */
  datatype Progress = NoProgress | Corrupt | Unrelated | Event(result: Push)

  datatype Push = Applied | Throws | LeaseLost

  datatype Row = Row(id: string, createdAt: int, progress: Progress)

  datatype LoadError = TransientError | TerminalError

  datatype State = State(cursorAt: int, cursorId: string, highWater: int, feed: Feed, cancelled: bool,
                         stopping: bool, terminal: bool, failures: nat, retryAt: int, degraded: bool)
  {
    predicate Inactive() { cancelled || terminal }

    /** A read that goes on takes up nothing more: a stopping observer only does what is forced. */
    predicate Halts(force: bool) { Inactive() || (stopping && !force) }
  }

  function RetryDelay(base: nat, failures: nat): nat
    requires failures > 0
  {
    base * Min(8, Power2(failures - 1))
  }

  function OnFailure(base: nat, s: State, e: LoadError, now: int): State {
    if s.Inactive() then s
    else if e == TerminalError then s.(terminal := true)
    else if s.stopping then s
    else
      s.(failures := s.failures + 1, retryAt := now + RetryDelay(base, s.failures + 1),
         degraded := s.degraded || s.failures + 1 >= 3)
  }

  function OnSuccess(s: State): State {
    if s.Inactive() then s else s.(failures := 0, retryAt := if s.failures > 0 || s.degraded then 0 else s.retryAt, degraded := false)
  }

  /** One row of a page: the cursor moves whatever the row holds. */
  function OnRow(s: State, force: bool, r: Row): State {
    if s.Halts(force) then s
    else
      var t := s.(cursorAt := r.createdAt, cursorId := r.id, highWater := Max(s.highWater, r.createdAt));
      if r.progress.NoProgress? || r.id in s.feed.seen then t
      else
        var u := t.(feed := Deliver(s.feed, r.id));
        if r.progress == Event(LeaseLost) then u.(terminal := true) else u
  }

  function OnRows(s: State, force: bool, rows: seq<Row>): State
    decreases |rows|
  {
    if rows == [] then s else OnRows(OnRow(s, force, rows[0]), force, rows[1..])
  }

  /** The end of a page that was not full: the next read starts a bounded way back. */
  function OnPageEnd(since: int, s: State, force: bool, count: nat): State {
    if s.Halts(force) || count >= PAGE then s else s.(cursorAt := Max(since, s.highWater - OVERLAP), cursorId := "0")
  }

  predicate MayPoll(s: State, now: int, force: bool) { !s.Inactive() && (force || (!s.stopping && s.retryAt <= now)) }

  /** The ids of the rows that carry progress, in the order delivered. */
  function IdsOf(rows: seq<Row>): seq<string> {
    if rows == [] then []
    else (if rows[0].progress.NoProgress? then [] else [rows[0].id]) + IdsOf(rows[1..])
  }

  predicate NoLeaseLost(rows: seq<Row>) { forall i :: 0 <= i < |rows| ==> rows[i].progress != Event(LeaseLost) }

  /** Reading rows is delivering their ids: corrupt rows, rows whose push throws and rows already
      seen stop nothing, so what the theorems above say of deliveries holds of pages. */
  lemma {:induction false} RowsAreDeliveries(s: State, force: bool, rows: seq<Row>)
    requires !s.Halts(force) && NoLeaseLost(rows)
    ensures OnRows(s, force, rows).feed == DeliverAll(s.feed, IdsOf(rows)) && !OnRows(s, force, rows).Halts(force)
    decreases |rows|
  {
    if rows != [] {
      var rest := rows[1..];
      forall i | 0 <= i < |rest| ensures rest[i].progress != Event(LeaseLost) { assert rest[i] == rows[i + 1]; }
      RowsAreDeliveries(OnRow(s, force, rows[0]), force, rest);
      if rows[0].progress.NoProgress? {
        assert [] + IdsOf(rest) == IdsOf(rest);
      } else {
        assert ([rows[0].id] + IdsOf(rest))[1..] == IdsOf(rest);
      }
    }
  }

  /** Once observation is cancelled or has met a terminal error, nothing changes any more and
      nothing is read; and once it is stopping, only a forced read does anything. */
  lemma {:induction false} InactiveIsFinal(base: nat, since: int, s: State, force: bool, rows: seq<Row>, e: LoadError, now: int, count: nat)
    requires s.Halts(force)
    ensures OnRows(s, force, rows) == s && OnPageEnd(since, s, force, count) == s && !MayPoll(s, now, force)
    ensures s.Inactive() ==> OnFailure(base, s, e, now) == s && OnSuccess(s) == s
    decreases |rows|
  {
    if rows != [] { InactiveIsFinal(base, since, s, force, rows[1..], e, now, count); }
  }

  // ---------- Reading the table ----------

  /** The order of the query: by time, then by the number of the id. */
  predicate Later(num: string -> nat, r: Row, at: int, id: string) {
    r.createdAt > at || (r.createdAt == at && num(r.id) > num(id))
  }

  predicate InOrder(num: string -> nat, table: seq<Row>) {
    forall i, j :: 0 <= i < j < |table| ==> Later(num, table[j], table[i].createdAt, table[i].id)
  }

  /** The rows of an ordered table from the first one beyond the cursor on. */
  function Beyond(num: string -> nat, table: seq<Row>, at: int, id: string): seq<Row> {
    if table == [] || Later(num, table[0], at, id) then table else Beyond(num, table[1..], at, id)
  }

  /** `readPublicProgress`: at most a page of them. */
  function Load(num: string -> nat, table: seq<Row>, at: int, id: string): seq<Row> {
    var rest := Beyond(num, table, at, id);
    if |rest| <= PAGE then rest else rest[..PAGE]
  }

  function OnPoll(num: string -> nat, since: int, table: seq<Row>, s: State): State {
    var rows := Load(num, table, s.cursorAt, s.cursorId);
    OnPageEnd(since, OnRows(OnSuccess(s), false, rows), false, |rows|)
  }

  function Polls(num: string -> nat, since: int, table: seq<Row>, s: State, n: nat): State
    decreases n
  {
    if n == 0 then s else Polls(num, since, table, OnPoll(num, since, table, s), n - 1)
  }

  /** Every row carries progress that can be pushed, no two share an id, and all lie in the stretch
      that is read again after the last of them. */
  predicate Overlapping(num: string -> nat, since: int, table: seq<Row>) {
    && table != [] && InOrder(num, table) && Distinct(IdsOf(table))
    && (forall i :: 0 <= i < |table| ==> Carries(table[i]))
    && (forall i :: 0 <= i < |table| ==> Later(num, table[i], StepBack(since, table[|table| - 1].createdAt), "0"))
  }

  predicate Carries(r: Row) { !r.progress.NoProgress? && r.progress != Event(LeaseLost) }

  function StepBack(since: int, highWater: int): int { Max(since, highWater - OVERLAP) }

  /** Between polls, with the rows from `i` on to be read. */
  predicate Standing(num: string -> nat, since: int, table: seq<Row>, s: State, i: nat) {
    && i <= |table| && !s.Halts(false)
    && Beyond(num, table, s.cursorAt, s.cursorId) == table[i..]
    && (table != [] ==> s.highWater <= table[|table| - 1].createdAt)
    && (table != [] && i == |table| ==> s.highWater == table[|table| - 1].createdAt)
  }

  lemma {:induction false} BeyondIsAll(num: string -> nat, table: seq<Row>, i: nat, at: int, id: string)
    requires i <= |table| && (i < |table| ==> Later(num, table[i], at, id))
    requires forall j :: 0 <= j < i ==> !Later(num, table[j], at, id)
    ensures Beyond(num, table, at, id) == table[i..]
    decreases i
  {
    if i > 0 { BeyondIsAll(num, table[1..], i - 1, at, id); }
  }

  /** Beyond one of its rows lie those after it. */
  lemma BeyondARow(num: string -> nat, table: seq<Row>, i: nat)
    requires InOrder(num, table) && i < |table|
    ensures Beyond(num, table, table[i].createdAt, table[i].id) == table[i + 1..]
  {
    forall j | 0 <= j < i + 1
      ensures !Later(num, table[j], table[i].createdAt, table[i].id)
    {
      if j < i { assert Later(num, table[i], table[j].createdAt, table[j].id); }
    }
    BeyondIsAll(num, table, i + 1, table[i].createdAt, table[i].id);
  }

  /** Reading rows in order leaves the cursor and the high water at the last of them. */
  lemma {:induction false} RowsMoveTheCursor(s: State, rows: seq<Row>)
    requires rows != [] && !s.Halts(false)
    requires forall i :: 0 <= i < |rows| ==> Carries(rows[i])
    requires forall i, j :: 0 <= i < j < |rows| ==> rows[i].createdAt <= rows[j].createdAt
    ensures var t := OnRows(s, false, rows);
      && !t.Halts(false) && t.cursorAt == rows[|rows| - 1].createdAt && t.cursorId == rows[|rows| - 1].id
      && t.highWater == Max(s.highWater, rows[|rows| - 1].createdAt)
    decreases |rows|
  {
    var t := OnRow(s, false, rows[0]);
    assert Carries(rows[0]);
    if |rows| > 1 {
      assert rows[0].createdAt <= rows[|rows| - 1].createdAt;
      RowsMoveTheCursor(t, rows[1..]);
    } else {
      assert rows[1..] == [];
    }
  }

  lemma {:induction false} IdsOfCarrying(rows: seq<Row>)
    requires forall i :: 0 <= i < |rows| ==> Carries(rows[i])
    ensures |IdsOf(rows)| == |rows|
    decreases |rows|
  {
    if rows != [] {
      assert Carries(rows[0]);
      IdsOfCarrying(rows[1..]);
    }
  }

  lemma {:induction false} IdsAppend(a: seq<Row>, b: seq<Row>)
    ensures IdsOf(a + b) == IdsOf(a) + IdsOf(b)
    decreases |a|
  {
    if a == [] {
      assert a + b == b;
    } else {
      assert (a + b)[1..] == a[1..] + b;
      IdsAppend(a[1..], b);
    }
  }

  /** Reading rows `i` to `n`: they are delivered, and the cursor stands at the last of them. */
  lemma PageIsRead(num: string -> nat, since: int, table: seq<Row>, s: State, i: nat, n: nat)
    requires Overlapping(num, since, table) && Standing(num, since, table, s, i) && i <= n <= |table|
    ensures var u := OnRows(s, false, table[i..n]);
      && u.feed == DeliverAll(s.feed, IdsOf(table[i..n])) && !u.Halts(false)
      && (n > i ==> u.cursorAt == table[n - 1].createdAt && u.cursorId == table[n - 1].id)
      && u.highWater <= table[|table| - 1].createdAt
      && (n == |table| ==> u.highWater == table[|table| - 1].createdAt)
  {
    var rows := table[i..n];
    forall k | 0 <= k < |rows| ensures Carries(rows[k]) && rows[k].progress != Event(LeaseLost) { assert rows[k] == table[i + k]; }
    RowsAreDeliveries(s, false, rows);
    if n > i {
      RowsInTimeOrder(num, table, i, n);
      RowsMoveTheCursor(s, rows);
      assert rows[|rows| - 1] == table[n - 1];
      NoLaterThanLast(num, table, n);
    }
  }

  lemma RowsInTimeOrder(num: string -> nat, table: seq<Row>, i: nat, n: nat)
    requires InOrder(num, table) && i <= n <= |table|
    ensures forall j, k :: 0 <= j < k < n - i ==> table[i..n][j].createdAt <= table[i..n][k].createdAt
  {
    forall j, k | 0 <= j < k < n - i
      ensures table[i..n][j].createdAt <= table[i..n][k].createdAt
    {
      assert Later(num, table[i + k], table[i + j].createdAt, table[i + j].id);
    }
  }

  lemma NoLaterThanLast(num: string -> nat, table: seq<Row>, n: nat)
    requires InOrder(num, table) && 0 < n <= |table|
    ensures table[n - 1].createdAt <= table[|table| - 1].createdAt
  {
    if n < |table| { assert Later(num, table[|table| - 1], table[n - 1].createdAt, table[n - 1].id); }
  }

  lemma SuccessStands(num: string -> nat, since: int, table: seq<Row>, s: State, i: nat)
    requires Standing(num, since, table, s, i)
    ensures Standing(num, since, table, OnSuccess(s), i) && OnSuccess(s).feed == s.feed
    ensures Load(num, table, s.cursorAt, s.cursorId) == table[i..Min(i + PAGE, |table|)]
  {
    assert i + PAGE >= |table| ==> table[i..Min(i + PAGE, |table|)] == table[i..];
    assert i + PAGE < |table| ==> table[i..][..PAGE] == table[i..i + PAGE];
  }

  /** One poll that reads a full page delivers it and stands behind it. */
  lemma FullPollReads(num: string -> nat, since: int, table: seq<Row>, s: State, i: nat)
    requires Overlapping(num, since, table) && Standing(num, since, table, s, i) && i + PAGE <= |table|
    ensures var t := OnPoll(num, since, table, s);
      t.feed == DeliverAll(s.feed, IdsOf(table[i..i + PAGE])) && Standing(num, since, table, t, i + PAGE)
  {
    SuccessStands(num, since, table, s, i);
    PageIsRead(num, since, table, OnSuccess(s), i, i + PAGE);
    BeyondARow(num, table, i + PAGE - 1);
  }

  /** One that reads a short page delivers that and starts over. */
  lemma ShortPollReads(num: string -> nat, since: int, table: seq<Row>, s: State, i: nat)
    requires Overlapping(num, since, table) && Standing(num, since, table, s, i) && |table| < i + PAGE
    ensures var t := OnPoll(num, since, table, s);
      t.feed == DeliverAll(s.feed, IdsOf(table[i..])) && Standing(num, since, table, t, 0)
  {
    SuccessStands(num, since, table, s, i);
    assert table[i..|table|] == table[i..] && table[0..] == table;
    PageIsRead(num, since, table, OnSuccess(s), i, |table|);
  }

  /** Observation starts before all of them. */
  lemma ObservationStands(num: string -> nat, since: int, table: seq<Row>, s: State)
    requires Overlapping(num, since, table) && !s.Halts(false)
    requires s.cursorAt == since && s.cursorId == "0" && s.highWater == since
    ensures Standing(num, since, table, s, 0)
  {
    assert Later(num, table[0], StepBack(since, table[|table| - 1].createdAt), "0");
    assert Later(num, table[|table| - 1], StepBack(since, table[|table| - 1].createdAt), "0");
    assert table[0..] == table;
  }

  // ---------- Pass after pass ----------

  lemma {:induction false} DeliverAllAppends(f: Feed, a: seq<string>, b: seq<string>)
    ensures DeliverAll(f, a + b) == DeliverAll(DeliverAll(f, a), b)
    decreases |a|
  {
    if a == [] {
      assert a + b == b;
    } else {
      assert (a + b)[1..] == a[1..] + b;
      DeliverAllAppends(Deliver(f, a[0]), a[1..], b);
    }
  }

  lemma {:induction false} PollsAdd(num: string -> nat, since: int, table: seq<Row>, s: State, m: nat, n: nat)
    ensures Polls(num, since, table, Polls(num, since, table, s, m), n) == Polls(num, since, table, s, m + n)
    decreases m
  {
    if m > 0 { PollsAdd(num, since, table, OnPoll(num, since, table, s), m - 1, n); }
  }

  /** How many polls read the rows from `i` on and start over. */
  function PollsFrom(n: nat, i: nat): nat
    requires i <= n
  {
    (n - i) / PAGE + 1
  }

  lemma OnePollLess(n: nat, i: nat)
    requires i + PAGE <= n
    ensures PollsFrom(n, i) == PollsFrom(n, i + PAGE) + 1
  {}

  lemma DeliveredInTwo(f: Feed, table: seq<Row>, i: nat, m: nat)
    requires i <= m <= |table|
    ensures DeliverAll(f, IdsOf(table[i..])) == DeliverAll(DeliverAll(f, IdsOf(table[i..m])), IdsOf(table[m..]))
  {
    assert table[i..] == table[i..m] + table[m..];
    IdsAppend(table[i..m], table[m..]);
    DeliverAllAppends(f, IdsOf(table[i..m]), IdsOf(table[m..]));
  }

  /** The polls from row `i` to the end of the table deliver the rest of it and start over. */
  predicate ReadsRest(num: string -> nat, since: int, table: seq<Row>, s: State, i: nat, t: State)
    requires i <= |table|
  {
    t.feed == DeliverAll(s.feed, IdsOf(table[i..])) && Standing(num, since, table, t, 0)
  }

  predicate Delivered(table: seq<Row>, s: State, i: nat, m: nat, t: State)
    requires i <= m <= |table|
  {
    t.feed == DeliverAll(s.feed, IdsOf(table[i..m]))
  }

  lemma PageThenRest(num: string -> nat, since: int, table: seq<Row>, s: State, i: nat, m: nat, u: State, t: State)
    requires i <= m <= |table| && Delivered(table, s, i, m, u) && ReadsRest(num, since, table, u, m, t)
    ensures ReadsRest(num, since, table, s, i, t)
  {
    DeliveredInTwo(s.feed, table, i, m);
  }

  lemma FullPoll(num: string -> nat, since: int, table: seq<Row>, s: State, i: nat, polls: nat) returns (t: State)
    requires Overlapping(num, since, table) && Standing(num, since, table, s, i) && i + PAGE <= |table| && polls > 0
    ensures Delivered(table, s, i, i + PAGE, t) && Standing(num, since, table, t, i + PAGE)
    ensures Polls(num, since, table, s, polls) == Polls(num, since, table, t, polls - 1)
  {
    FullPollReads(num, since, table, s, i);
    t := OnPoll(num, since, table, s);
  }

  lemma ShortPoll(num: string -> nat, since: int, table: seq<Row>, s: State, i: nat, polls: nat) returns (t: State)
    requires Overlapping(num, since, table) && Standing(num, since, table, s, i) && |table| < i + PAGE
    requires polls == PollsFrom(|table|, i)
    ensures t == Polls(num, since, table, s, polls) && ReadsRest(num, since, table, s, i, t)
  {
    t := OnPoll(num, since, table, s);
    ShortPollReads(num, since, table, s, i);
    assert polls == 1;
    assert Polls(num, since, table, s, polls) == Polls(num, since, table, t, 0);
  }

  lemma {:induction false} RestIsRead(num: string -> nat, since: int, table: seq<Row>, s: State, i: nat, polls: nat)
      returns (t: State)
    requires Overlapping(num, since, table) && Standing(num, since, table, s, i) && polls == PollsFrom(|table|, i)
    ensures t == Polls(num, since, table, s, polls) && ReadsRest(num, since, table, s, i, t)
    decreases |table| - i
  {
    if i + PAGE <= |table| {
      OnePollLess(|table|, i);
      var u := FullPoll(num, since, table, s, i, polls);
      t := RestIsRead(num, since, table, u, i + PAGE, polls - 1);
      PageThenRest(num, since, table, s, i, i + PAGE, u, t);
    } else {
      t := ShortPoll(num, since, table, s, i, polls);
    }
  }

  function Passes(num: string -> nat, since: int, table: seq<Row>, s: State, n: nat): State
    decreases n
  {
    if n == 0 then s else Passes(num, since, table, Polls(num, since, table, s, PollsFrom(|table|, 0)), n - 1)
  }

  /** The ids over and over. */
  function Repeat(ids: seq<string>, n: nat): seq<string> { if n == 0 then [] else ids + Repeat(ids, n - 1) }

  lemma {:induction false} RepeatAppends(ids: seq<string>, n: nat)
    ensures Repeat(ids, n + 1) == Repeat(ids, n) + ids
  {
    if n == 0 {
      assert ids + [] == [] + ids;
    } else {
      RepeatAppends(ids, n - 1);
      assert ids + (Repeat(ids, n - 1) + ids) == (ids + Repeat(ids, n - 1)) + ids;
    }
  }

  /** What was pushed before a round of these ids: nothing, or such a round last. */
  predicate Rounds(f: Feed, ids: seq<string>) {
    f.pushed == [] || (|ids| <= |f.pushed| && f.pushed[|f.pushed| - |ids|..] == ids)
  }

  lemma NotAmongTheLast(f: Feed, ids: seq<string>, j: nat)
    requires Distinct(ids) && Rounds(f, ids) && j < |ids| && (f.pushed == [] || |ids| > SEEN_LIMIT)
    ensures ids[j] !in Last(f.pushed + ids[..j], SEEN_LIMIT)
  {
    var all := f.pushed + ids[..j];
    var last := Last(all, SEEN_LIMIT);
    forall k | 0 <= k < |last|
      ensures last[k] != ids[j]
    {
      var at := |all| - |last| + k;
      assert last[k] == all[at];
      if at < |f.pushed| {
        var back := |f.pushed| - |ids|;
        assert all[at] == f.pushed[at] == f.pushed[back..][at - back] == ids[at - back];
      }
    }
  }

  /** A round of distinct ids is pushed whole if nothing was pushed yet, and also after another such
      round if there are more than 500 of them. */
  lemma {:induction false} RoundIsPushed(f: Feed, ids: seq<string>, j: nat)
    requires Fits(f) && Distinct(ids) && Rounds(f, ids) && j <= |ids| && (f.pushed == [] || |ids| > SEEN_LIMIT)
    ensures DeliverAll(f, ids[..j]).pushed == f.pushed + ids[..j]
    decreases j
  {
    if j > 0 {
      RoundIsPushed(f, ids, j - 1);
      DeliverAllFits(f, ids[..j - 1]);
      NotAmongTheLast(f, ids, j - 1);
      assert ids[..j] == ids[..j - 1] + [ids[j - 1]] && [ids[j - 1]][1..] == [];
      DeliverAllAppends(f, ids[..j - 1], [ids[j - 1]]);
      var g := DeliverAll(f, ids[..j - 1]);
      assert DeliverAll(g, [ids[j - 1]]) == DeliverAll(Deliver(g, ids[j - 1]), []);
      assert (f.pushed + ids[..j - 1]) + [ids[j - 1]] == f.pushed + ids[..j];
    }
  }

  lemma {:induction false} SeenIdsPushNothing(f: Feed, ids: seq<string>)
    requires forall x :: x in ids ==> x in f.seen
    ensures DeliverAll(f, ids) == f
    decreases |ids|
  {
    if ids != [] { SeenIdsPushNothing(f, ids[1..]); }
  }

  /** Where the limit of the set meets the overlap: rows that all lie within the overlap are read
      again by every pass. Up to 500 of them are pushed once, by the first pass; more are pushed
      again, all of them, by every pass. */
  lemma OverlapIsPushedAgain(num: string -> nat, since: int, table: seq<Row>, s: State, passes: nat)
    requires Overlapping(num, since, table) && Standing(num, since, table, s, 0) && s.feed == Feed([], [])
    ensures var t := Passes(num, since, table, s, passes);
      t.feed.pushed == Repeat(IdsOf(table), if |table| <= SEEN_LIMIT then Min(passes, 1) else passes)
  {
    PassesPush(num, since, table, s, 0, passes);
  }

  /** After `done` passes. */
  predicate Pushed(table: seq<Row>, f: Feed, done: nat) {
    Fits(f) && f.pushed == Repeat(IdsOf(table), if |table| <= SEEN_LIMIT then Min(done, 1) else done)
  }

  lemma PassReads(num: string -> nat, since: int, table: seq<Row>, s: State, done: nat) returns (t: State)
    requires Overlapping(num, since, table) && Standing(num, since, table, s, 0) && Pushed(table, s.feed, done)
    ensures t == Polls(num, since, table, s, PollsFrom(|table|, 0))
    ensures Pushed(table, t.feed, done + 1) && Standing(num, since, table, t, 0)
  {
    t := RestIsRead(num, since, table, s, 0, PollsFrom(|table|, 0));
    assert table[0..] == table;
    OnePass(table, s.feed, done);
  }

  lemma {:induction false} PassesPush(num: string -> nat, since: int, table: seq<Row>, s: State, done: nat, more: nat)
    requires Overlapping(num, since, table) && Standing(num, since, table, s, 0) && Pushed(table, s.feed, done)
    ensures Pushed(table, Passes(num, since, table, s, more).feed, done + more)
    decreases more
  {
    if more > 0 {
      var t := PassReads(num, since, table, s, done);
      PassesPush(num, since, table, t, done + 1, more - 1);
    }
  }

  lemma OnePass(table: seq<Row>, f: Feed, done: nat)
    requires table != [] && Distinct(IdsOf(table)) && Pushed(table, f, done)
    requires forall i :: 0 <= i < |table| ==> Carries(table[i])
    ensures Pushed(table, DeliverAll(f, IdsOf(table)), done + 1)
  {
    IdsOfCarrying(table);
    DeliverAllFits(f, IdsOf(table));
    if done == 0 {
      FirstRound(f, IdsOf(table));
    } else if |table| <= SEEN_LIMIT {
      SeenRound(f, IdsOf(table));
    } else {
      AnotherRound(f, IdsOf(table), done);
    }
  }

  lemma FirstRound(f: Feed, ids: seq<string>)
    requires Fits(f) && Distinct(ids) && f.pushed == []
    ensures DeliverAll(f, ids).pushed == ids == Repeat(ids, 1)
  {
    assert ids[..|ids|] == ids && [] + ids == ids;
    RoundIsPushed(f, ids, |ids|);
    assert Repeat(ids, 1) == ids + Repeat(ids, 0) == ids + [];
  }

  lemma SeenRound(f: Feed, ids: seq<string>)
    requires Fits(f) && f.pushed == Repeat(ids, 1) && |ids| <= SEEN_LIMIT
    ensures DeliverAll(f, ids) == f
  {
    assert Repeat(ids, 1) == ids + Repeat(ids, 0) == ids;
    SeenIdsPushNothing(f, ids);
  }

  lemma AnotherRound(f: Feed, ids: seq<string>, done: nat)
    requires Fits(f) && Distinct(ids) && |ids| > SEEN_LIMIT && done > 0 && f.pushed == Repeat(ids, done)
    ensures DeliverAll(f, ids).pushed == Repeat(ids, done + 1)
  {
    var before := Repeat(ids, done - 1);
    RepeatAppends(ids, done - 1);
    assert (before + ids)[|before|..] == ids;
    assert ids[..|ids|] == ids;
    RoundIsPushed(f, ids, |ids|);
    RepeatAppends(ids, done);
  }

  function Fail(base: nat, s: State, times: seq<int>): State
    decreases |times|
  {
    if times == [] then s else Fail(base, OnFailure(base, s, TransientError, times[0]), times[1..])
  }

  /** After k failures in a row the next unforced read waits `RetryDelay` of k from the last of
      them, never stopping for good, and a success clears it. */
  lemma {:induction false} BackoffCountsFailures(base: nat, s: State, times: seq<int>)
    requires !s.Inactive() && !s.stopping && times != []
    ensures var t := Fail(base, s, times);
      var last := times[|times| - 1];
      && !t.Inactive() && !t.stopping && t.failures == s.failures + |times|
      && t.retryAt == last + RetryDelay(base, t.failures)
      && (forall now :: MayPoll(t, now, false) <==> last + RetryDelay(base, t.failures) <= now)
      && MayPoll(OnSuccess(t), last, true) && OnSuccess(t).failures == 0 && OnSuccess(t).retryAt == 0
    decreases |times|
  {
    var t := OnFailure(base, s, TransientError, times[0]);
    if |times| > 1 {
      assert times[1..][|times| - 2] == times[|times| - 1];
      BackoffCountsFailures(base, t, times[1..]);
    } else {
      assert times[1..] == [];
    }
  }

  /** The delay is one interval at first and doubles while that stays within eight. */
  lemma DelayDoubles(base: nat, k: nat)
    requires k > 0
    ensures RetryDelay(base, 1) == base
    ensures RetryDelay(base, k + 1) == Min(2 * RetryDelay(base, k), 8 * base)
  {
    var p := Power2(k - 1);
    assert Power2(k) == 2 * p;
    assert Min(8, 2 * p) == Min(2 * Min(8, p), 8);
    Monotone(base, 2 * Min(8, p));
  }

  lemma Monotone(base: nat, a: nat)
    ensures base * Min(a, 8) == Min(base * a, base * 8)
  {
    if a <= 8 { assert base * (8 - a) >= 0; } else { assert base * (a - 8) >= 0; }
  }

  /** The closure's variables. */
  class Observer {
    const since: int
    const baseDelayMs: nat
    var cursorAt: int
    var cursorId: string
    var highWater: int
    var seen: seq<string>
    var cancelled: bool
    var stopping: bool
    var terminal: bool
    var consecutiveFailures: nat
    var retryAt: int
    var degraded: bool
    ghost var pushed: seq<string>

    ghost function Value(): State
      reads this
    {
      State(cursorAt, cursorId, highWater, Feed(seen, pushed), cancelled, stopping, terminal,
        consecutiveFailures, retryAt, degraded)
    }

    constructor (since: int, baseDelayMs: nat, degraded: bool)
      ensures this.since == since && this.baseDelayMs == baseDelayMs
      ensures Value() == State(since, "0", since, Feed([], []), false, false, false, 0, 0, degraded)
    {
      this.since, this.baseDelayMs, this.degraded := since, baseDelayMs, degraded;
      cursorAt, cursorId, highWater, seen := since, "0", since, [];
      cancelled, stopping, terminal, consecutiveFailures, retryAt := false, false, false, 0, 0;
      pushed := [];
    }

    method FailLoad(e: LoadError, now: int)
      modifies this
      ensures Value() == OnFailure(baseDelayMs, old(Value()), e, now)
    {
      if cancelled || terminal { return; }
      if e == TerminalError { terminal := true; return; }
      if stopping { return; }
      consecutiveFailures := consecutiveFailures + 1;
      var retryDelayMs := RetryDelay(baseDelayMs, consecutiveFailures);
      retryAt := now + retryDelayMs;
      if consecutiveFailures >= 3 { degraded := true; }
    }

    method Recover()
      modifies this
      ensures Value() == OnSuccess(old(Value()))
    {
      if (consecutiveFailures == 0 && !degraded) || cancelled || terminal { return; }
      consecutiveFailures := 0;
      retryAt := 0;
      degraded := false;
    }

    predicate Halts(force: bool)
      reads this
    {
      cancelled || terminal || (stopping && !force)
    }

    method ApplyRow(row: Row, force: bool)
      requires !Halts(force)
      modifies this
      ensures Value() == OnRow(old(Value()), force, row)
    {
      cursorAt, cursorId := row.createdAt, row.id;
      highWater := Max(highWater, row.createdAt);
      if row.progress.NoProgress? || row.id in seen { return; }
      seen := if |seen| < SEEN_LIMIT then seen + [row.id] else seen[1..] + [row.id];
      pushed := pushed + [row.id];
      if row.progress == Event(LeaseLost) { terminal := true; }
    }

    /** The loop over a page of rows. */
    method ApplyRows(rows: seq<Row>, force: bool)
      modifies this
      ensures Value() == OnPageEnd(since, OnRows(old(Value()), force, rows), force, |rows|)
    {
      var i := 0;
      while i < |rows| && !Halts(force)
        invariant i <= |rows|
        invariant OnRows(old(Value()), force, rows) == OnRows(Value(), force, rows[i..])
      {
        assert rows[i..][1..] == rows[i + 1..];
        ApplyRow(rows[i], force);
        i := i + 1;
      }
      if Halts(force) {
        InactiveIsFinal(baseDelayMs, since, Value(), force, rows[i..], TransientError, 0, |rows|);
        return;
      }
      assert rows[i..] == [];
      if |rows| < PAGE {
        cursorAt, cursorId := Max(since, highWater - OVERLAP), "0";
      }
    }
  }
}
