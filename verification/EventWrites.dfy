/** The realtime event write queue (src/storage/codex-sessions.mjs, `acquireEventWrite` and
    `releaseEventWrite`).

    At most two writes hold a slot. Receipts and other durable events wait in order and are
    never dropped; best-effort events wait up to a limit and give way to durable ones. */
module EventWrites {
  import opened Prelude

  const CONCURRENCY: nat := 2
  const QUEUE_LIMIT: nat := 200

  datatype Entry = Entry(id: nat, bestEffort: bool)

  /** `granted` and `dropped` list the writes that got a slot, and those resolved without one,
      in the order it happened; `gone` interleaves both for the best-effort ones. */
  datatype State = State(active: nat, queue: seq<Entry>, granted: seq<Entry>, dropped: seq<Entry>,
                         gone: seq<Entry>, finished: nat)

  datatype Action = Arrive(entry: Entry) | Finish

  function Select(s: seq<Entry>, bestEffort: bool): seq<Entry> {
    if s == [] then []
    else (if s[0].bestEffort == bestEffort then [s[0]] else []) + Select(s[1..], bestEffort)
  }

  /** The first entry of a kind, or the length. */
  function FindKind(s: seq<Entry>, bestEffort: bool): (k: nat)
    ensures k <= |s|
    ensures k < |s| ==> s[k].bestEffort == bestEffort
  {
    if s == [] || s[0].bestEffort == bestEffort then 0 else 1 + FindKind(s[1..], bestEffort)
  }

  function Remove(s: seq<Entry>, k: nat): seq<Entry>
    requires k < |s|
  {
    s[..k] + s[k + 1..]
  }

  function Granted(s: State, e: Entry): State {
    s.(granted := s.granted + [e], gone := if e.bestEffort then s.gone + [e] else s.gone)
  }

  function OnArrive(s: State, e: Entry): State {
    if s.active < CONCURRENCY then Granted(s, e).(active := s.active + 1)
    else
      var queued := s.(queue := s.queue + [e]);
      if |Select(queued.queue, true)| > QUEUE_LIMIT then
        var k := FindKind(queued.queue, true);
        if k == |queued.queue| then queued
        else
          queued.(queue := Remove(queued.queue, k), dropped := s.dropped + [queued.queue[k]],
                  gone := s.gone + [queued.queue[k]])
      else queued
  }

  /** A write has ended and passes its slot on. */
  function OnFinish(s: State): State {
    if s.active == 0 then s
    else if s.queue == [] then s.(active := s.active - 1, finished := s.finished + 1)
    else
      var priority := FindKind(s.queue, false);
      var k := if priority < |s.queue| then priority else 0;
      Granted(s.(queue := Remove(s.queue, k)), s.queue[k]).(finished := s.finished + 1)
  }

  function Step(s: State, a: Action): State {
    match a
    case Arrive(e) => OnArrive(s, e)
    case Finish => OnFinish(s)
  }

  function Run(s: State, actions: seq<Action>): State
    decreases |actions|
  {
    if actions == [] then s else Run(Step(s, actions[0]), actions[1..])
  }

  function Arrivals(actions: seq<Action>): seq<Entry> {
    if actions == [] then []
    else (if actions[0].Arrive? then [actions[0].entry] else []) + Arrivals(actions[1..])
  }

  function Empty(): State { State(0, [], [], [], [], 0) }

  // ---------- Selections ----------

  lemma Joined(a: seq<Entry>, b: seq<Entry>, c: seq<Entry>)
    ensures a + (b + c) == (a + b) + c
  {}

  lemma {:induction false} SelectAppends(a: seq<Entry>, b: seq<Entry>, bestEffort: bool)
    ensures Select(a + b, bestEffort) == Select(a, bestEffort) + Select(b, bestEffort)
    decreases |a|
  {
    if a == [] {
      assert a + b == b;
    } else {
      var head := if a[0].bestEffort == bestEffort then [a[0]] else [];
      assert (a + b)[0] == a[0] && (a + b)[1..] == a[1..] + b;
      SelectAppends(a[1..], b, bestEffort);
      Joined(head, Select(a[1..], bestEffort), Select(b, bestEffort));
    }
  }

  lemma SelectOne(a: seq<Entry>, e: Entry, bestEffort: bool)
    ensures Select(a + [e], bestEffort) == Select(a, bestEffort) + (if e.bestEffort == bestEffort then [e] else [])
  {
    SelectAppends(a, [e], bestEffort);
    assert [e][1..] == [];
  }

  /** Removing the first entry of a kind takes the head of that selection and leaves the other. */
  lemma {:induction false} RemoveFirst(s: seq<Entry>, bestEffort: bool)
    requires FindKind(s, bestEffort) < |s|
    ensures var k := FindKind(s, bestEffort);
      && Select(s, bestEffort) == [s[k]] + Select(Remove(s, k), bestEffort)
      && Select(Remove(s, k), !bestEffort) == Select(s, !bestEffort)
  {
    var k := FindKind(s, bestEffort);
    if k == 0 {
      assert Remove(s, 0) == s[1..];
    } else {
      RemoveFirst(s[1..], bestEffort);
      assert Remove(s, k) == [s[0]] + Remove(s[1..], k - 1);
      assert Remove(s, k)[1..] == Remove(s[1..], k - 1);
    }
  }

  lemma {:induction false} NoneFound(s: seq<Entry>, bestEffort: bool)
    ensures FindKind(s, bestEffort) == |s| <==> Select(s, bestEffort) == []
    ensures FindKind(s, bestEffort) == |s| ==> Select(s, !bestEffort) == s
  {
    if s != [] { NoneFound(s[1..], bestEffort); }
  }

  lemma {:induction false} SelectionsCount(s: seq<Entry>)
    ensures |Select(s, true)| + |Select(s, false)| == |s|
  {
    if s != [] { SelectionsCount(s[1..]); }
  }

  // ---------- What holds over every sequence ----------

  /** Ties a state to everything that arrived to produce it. */
  predicate Inv(s: State, arrivals: seq<Entry>) {
    && s.active <= CONCURRENCY
    && (s.queue != [] ==> s.active == CONCURRENCY)
    && |Select(s.queue, true)| <= QUEUE_LIMIT
    && Select(arrivals, false) == Select(s.granted, false) + Select(s.queue, false)
    && Select(arrivals, true) == s.gone + Select(s.queue, true)
    && Select(s.dropped, false) == []
    && |s.gone| == |Select(s.granted, true)| + |s.dropped|
    && |s.granted| == s.active + s.finished
  }

  lemma QueueOne(s: State, arrivals: seq<Entry>, e: Entry)
    requires Inv(s, arrivals) && s.active == CONCURRENCY
    ensures var t := s.(queue := s.queue + [e]);
      && Select(arrivals + [e], false) == Select(t.granted, false) + Select(t.queue, false)
      && Select(arrivals + [e], true) == t.gone + Select(t.queue, true)
      && |Select(t.queue, true)| <= |Select(s.queue, true)| + 1
  {
    SelectOne(arrivals, e, true);
    SelectOne(arrivals, e, false);
    SelectOne(s.queue, e, true);
    SelectOne(s.queue, e, false);
  }

  lemma ArriveKeepsInv(s: State, arrivals: seq<Entry>, e: Entry)
    requires Inv(s, arrivals)
    ensures Inv(OnArrive(s, e), arrivals + [e])
  {
    if s.active < CONCURRENCY {
      SelectOne(arrivals, e, true);
      SelectOne(arrivals, e, false);
      SelectOne(s.granted, e, true);
      SelectOne(s.granted, e, false);
    } else {
      QueueOne(s, arrivals, e);
      var queue := s.queue + [e];
      NoneFound(queue, true);
      if |Select(queue, true)| > QUEUE_LIMIT {
        var k := FindKind(queue, true);
        RemoveFirst(queue, true);
        SelectOne(s.dropped, queue[k], false);
        Joined(s.gone, [queue[k]], Select(Remove(queue, k), true));
      }
    }
  }

  lemma FinishDurable(s: State, arrivals: seq<Entry>)
    requires Inv(s, arrivals) && s.active > 0 && FindKind(s.queue, false) < |s.queue|
    ensures Inv(OnFinish(s), arrivals)
  {
    var k := FindKind(s.queue, false);
    RemoveFirst(s.queue, false);
    SelectOne(s.granted, s.queue[k], true);
    SelectOne(s.granted, s.queue[k], false);
    Joined(Select(s.granted, false), [s.queue[k]], Select(Remove(s.queue, k), false));
  }

  lemma FinishBestEffort(s: State, arrivals: seq<Entry>)
    requires Inv(s, arrivals) && s.active > 0 && s.queue != [] && FindKind(s.queue, false) == |s.queue|
    ensures Inv(OnFinish(s), arrivals)
  {
    NoneFound(s.queue, false);
    assert s.queue == Select(s.queue, true);
    assert FindKind(s.queue, true) == 0;
    RemoveFirst(s.queue, true);
    SelectOne(s.granted, s.queue[0], true);
    SelectOne(s.granted, s.queue[0], false);
    Joined(s.gone, [s.queue[0]], Select(Remove(s.queue, 0), true));
  }

  lemma FinishKeepsInv(s: State, arrivals: seq<Entry>)
    requires Inv(s, arrivals)
    ensures Inv(OnFinish(s), arrivals)
  {
    if s.active > 0 && s.queue != [] {
      if FindKind(s.queue, false) < |s.queue| { FinishDurable(s, arrivals); } else { FinishBestEffort(s, arrivals); }
    }
  }

  lemma {:induction false} RunKeepsInv(s: State, arrivals: seq<Entry>, actions: seq<Action>)
    requires Inv(s, arrivals)
    ensures Inv(Run(s, actions), arrivals + Arrivals(actions))
    decreases |actions|
  {
    if actions == [] {
      assert Arrivals(actions) == [] && arrivals + [] == arrivals;
    } else {
      var now := if actions[0].Arrive? then arrivals + [actions[0].entry] else arrivals;
      match actions[0] {
        case Arrive(e) => ArriveKeepsInv(s, arrivals, e);
        case Finish => FinishKeepsInv(s, arrivals);
      }
      RunKeepsInv(Step(s, actions[0]), now, actions[1..]);
      if actions[0].Arrive? { Joined(arrivals, [actions[0].entry], Arrivals(actions[1..])); }
      assert actions[0].Finish? ==> Arrivals(actions) == [] + Arrivals(actions[1..]) == Arrivals(actions[1..]);
    }
  }

  /** Over every sequence of arrivals and completions: at most two writes are in flight; durable
      writes all start, in arrival order, none dropped; best-effort writes leave the queue in
      arrival order, at most the limit waiting; and nothing is unaccounted for. */
  lemma QueueKeepsItsPromises(actions: seq<Action>)
    ensures var s := Run(Empty(), actions);
      var arrivals := Arrivals(actions);
      && s.active <= 2
      && Select(arrivals, false) == Select(s.granted, false) + Select(s.queue, false)
      && Select(s.dropped, false) == []
      && Select(arrivals, true) == s.gone + Select(s.queue, true)
      && |Select(s.queue, true)| <= 200
      && |arrivals| == s.finished + s.active + |s.queue| + |s.dropped|
  {
    RunKeepsInv(Empty(), [], actions);
    assert [] + Arrivals(actions) == Arrivals(actions);
    var s := Run(Empty(), actions);
    SelectionsCount(Arrivals(actions));
    SelectionsCount(s.granted);
    SelectionsCount(s.queue);
  }

  /** A freed slot goes to the oldest waiting durable write, and only if there is none to the
      oldest best-effort one; it stays free only when nobody waits. */
  lemma SlotGoesToTheOldestDurable(actions: seq<Action>)
    requires Run(Empty(), actions).active > 0
    ensures var s := Run(Empty(), actions);
      var t := OnFinish(s);
      && (Select(s.queue, false) != [] ==> t.granted == s.granted + [Select(s.queue, false)[0]])
      && (Select(s.queue, false) == [] && s.queue != [] ==> t.granted == s.granted + [Select(s.queue, true)[0]])
      && (s.queue == [] ==> t.granted == s.granted && t.active == s.active - 1)
      && (s.queue != [] ==> t.active == s.active)
  {
    var s := Run(Empty(), actions);
    NoneFound(s.queue, false);
    if FindKind(s.queue, false) < |s.queue| { RemoveFirst(s.queue, false); }
  }

  /** A write is dropped only by one best-effort arrival too many, and it is the oldest waiting. */
  lemma OnlyTheOldestIsDropped(actions: seq<Action>, e: Entry)
    ensures var s := Run(Empty(), actions);
      var t := OnArrive(s, e);
      var waiting := Select(s.queue, true) + (if e.bestEffort then [e] else []);
      if s.active == 2 && |waiting| > 200 then e.bestEffort && t.dropped == s.dropped + [waiting[0]]
      else t.dropped == s.dropped
  {
    var s := Run(Empty(), actions);
    RunKeepsInv(Empty(), [], actions);
    SelectOne(s.queue, e, true);
    NoneFound(s.queue + [e], true);
    if FindKind(s.queue + [e], true) < |s.queue + [e]| { RemoveFirst(s.queue + [e], true); }
  }

  /** What a freed slot takes from the queue: the entry, and how many best-effort writes stay. */
  lemma Taken(queue: seq<Entry>)
    requires queue != []
    ensures var priority := FindKind(queue, false);
      var k := if priority < |queue| then priority else 0;
      |Select(Remove(queue, k), true)| == |Select(queue, true)| - (if queue[k].bestEffort then 1 else 0)
  {
    NoneFound(queue, false);
    if FindKind(queue, false) < |queue| { RemoveFirst(queue, false); } else { RemoveFirst(queue, true); }
  }

  // ---------- The store's fields ----------

  class Queue {
    var eventWritesActive: nat
    var queuedBestEffort: nat
    var eventWriteQueue: seq<Entry>
    var droppedTotal: nat
    ghost var granted: seq<Entry>
    ghost var dropped: seq<Entry>
    ghost var gone: seq<Entry>
    ghost var finished: nat

    ghost function Value(): State
      reads this
    {
      State(eventWritesActive, eventWriteQueue, granted, dropped, gone, finished)
    }

    /** The counters are what they count. */
    ghost predicate Valid()
      reads this
    {
      queuedBestEffort == |Select(eventWriteQueue, true)| && droppedTotal == |dropped|
    }

    constructor ()
      ensures Valid() && Value() == Empty()
    {
      eventWritesActive, queuedBestEffort, eventWriteQueue, droppedTotal := 0, 0, [], 0;
      granted, dropped, gone, finished := [], [], [], 0;
    }

    method FindIndex(bestEffort: bool) returns (k: nat)
      ensures k == FindKind(eventWriteQueue, bestEffort)
    {
      k := 0;
      while k < |eventWriteQueue| && eventWriteQueue[k].bestEffort != bestEffort
        invariant k <= |eventWriteQueue|
        invariant FindKind(eventWriteQueue, bestEffort) == k + FindKind(eventWriteQueue[k..], bestEffort)
      {
        assert eventWriteQueue[k..][1..] == eventWriteQueue[k + 1..];
        k := k + 1;
      }
    }

    /** Takes a slot, or queues; `victim` is a write that is resolved without one. */
    method AcquireEventWrite(e: Entry) returns (slot: bool, victim: Option<Entry>)
      requires Valid()
      modifies this
      ensures Valid() && Value() == OnArrive(old(Value()), e)
      ensures slot <==> old(eventWritesActive) < CONCURRENCY
      ensures dropped == old(dropped) + (if victim.Some? then [victim.value] else [])
    {
      victim := None;
      slot := eventWritesActive < CONCURRENCY;
      if slot {
        eventWritesActive := eventWritesActive + 1;
        granted := granted + [e];
        gone := if e.bestEffort then gone + [e] else gone;
        return;
      }
      SelectOne(eventWriteQueue, e, true);
      eventWriteQueue := eventWriteQueue + [e];
      if e.bestEffort { queuedBestEffort := queuedBestEffort + 1; }
      if queuedBestEffort > QUEUE_LIMIT {
        NoneFound(eventWriteQueue, true);
        RemoveFirst(eventWriteQueue, true);
        var k := FindIndex(true);
        victim := Some(eventWriteQueue[k]);
        eventWriteQueue := Remove(eventWriteQueue, k);
        queuedBestEffort := queuedBestEffort - 1;
        droppedTotal := droppedTotal + 1;
        dropped, gone := dropped + [victim.value], gone + [victim.value];
      }
    }

    /** Passes the slot straight on, or frees it. */
    method ReleaseEventWrite() returns (next: Option<Entry>)
      requires Valid() && eventWritesActive > 0
      modifies this
      ensures Valid() && Value() == OnFinish(old(Value()))
      ensures granted == old(granted) + (if next.Some? then [next.value] else [])
    {
      finished := finished + 1;
      if |eventWriteQueue| == 0 {
        eventWritesActive := eventWritesActive - 1;
        return None;
      }
      var priority := FindIndex(false);
      var k := if priority < |eventWriteQueue| then priority else 0;
      Taken(eventWriteQueue);
      var entry := eventWriteQueue[k];
      eventWriteQueue := Remove(eventWriteQueue, k);
      if entry.bestEffort { queuedBestEffort := queuedBestEffort - 1; }
      granted := granted + [entry];
      gone := if entry.bestEffort then gone + [entry] else gone;
      next := Some(entry);
    }
  }
}
