/** First receipt of a message (src/storage/store.mjs, `acceptInbound`).

    Live delivery and history catch-up register the same message under different event keys.
    One transaction decides which was first; only the first creates consumer jobs. */
module Inbound {
  import opened Prelude

  /** What the payload hash covers: the event without receive time and source. */
  datatype Identity = Identity(canonical: bool, conversation: string, messageId: string, content: string)

  datatype Event = Event(key: string, identity: Identity, history: bool, hooks: seq<string>)

  /** One inbox row; ids are allocated in order. */
  datatype Row = Row(id: nat, identity: Identity)

  /** Jobs are unique by hook and idempotency key, and the key is the event key. */
  datatype Job = Job(hook: string, key: string, event: nat)

  datatype Message = Message(conversation: string, messageId: string)

  datatype Tables = Tables(inbox: map<string, Row>, receipts: map<Message, nat>, jobs: set<Job>, next: nat)

  datatype Reply = Conflict | Duplicate(event: nat) | First(event: nat)

  function Empty(): Tables { Tables(map[], map[], {}, 0) }

  function MessageOf(x: Identity): Message { Message(x.conversation, x.messageId) }

  /** The event can be found again: its message has a receipt, or, for an event that is not a
      message, its key is in the inbox. */
  predicate Recorded(t: Tables, e: Event) {
    if e.identity.canonical then MessageOf(e.identity) in t.receipts else e.key in t.inbox
  }

  predicate HasReceipt(t: Tables, e: Event) { e.identity.canonical && MessageOf(e.identity) in t.receipts }

  function Answer(t: Tables, e: Event): Reply {
    if e.key in t.inbox && t.inbox[e.key].identity != e.identity && !(HasReceipt(t, e) && e.history) then Conflict
    else if HasReceipt(t, e) then Duplicate(t.receipts[MessageOf(e.identity)])
    else if e.key in t.inbox then Duplicate(t.inbox[e.key].id)
    else First(t.next)
  }

  function JobsOf(e: Event, id: nat): set<Job> { set h | h in e.hooks :: Job(h, e.key, id) }

  function Accept(t: Tables, e: Event): Tables {
    match Answer(t, e)
    case Conflict => t
    case Duplicate(_) =>
      var filed := if e.key in t.inbox then t else t.(inbox := t.inbox[e.key := Row(t.next, e.identity)], next := t.next + 1);
      if e.identity.canonical && !HasReceipt(t, e) then
        filed.(receipts := filed.receipts[MessageOf(e.identity) := filed.inbox[e.key].id])
      else filed
    case First(id) =>
      Tables(t.inbox[e.key := Row(id, e.identity)],
        if e.identity.canonical then t.receipts[MessageOf(e.identity) := id] else t.receipts,
        t.jobs + JobsOf(e, id), id + 1)
  }

  /** A job belongs to its inbox row, and for a message that row is the first receipt. */
  predicate OwnedBy(t: Tables, j: Job)
    requires j.key in t.inbox
  {
    var x := t.inbox[j.key].identity;
    && t.inbox[j.key].id == j.event
    && (x.canonical ==> MessageOf(x) in t.receipts && t.receipts[MessageOf(x)] == j.event)
  }

  predicate IsFirstOf(t: Tables, k: string, m: Message, id: nat) {
    k in t.inbox && t.inbox[k].id == id && t.inbox[k].identity.canonical && MessageOf(t.inbox[k].identity) == m
  }

  predicate RowsNumbered(t: Tables) {
    && (forall k :: k in t.inbox ==> t.inbox[k].id < t.next)
    && (forall k, l :: k in t.inbox && l in t.inbox && t.inbox[k].id == t.inbox[l].id ==> k == l)
  }

  predicate MessagesReceipted(t: Tables) {
    forall k :: k in t.inbox && t.inbox[k].identity.canonical ==> MessageOf(t.inbox[k].identity) in t.receipts
  }

  predicate ReceiptsNamed(t: Tables) {
    forall m :: m in t.receipts ==> exists k :: k in t.inbox && IsFirstOf(t, k, m, t.receipts[m])
  }

  predicate JobsOwned(t: Tables) { forall j :: j in t.jobs ==> j.key in t.inbox && OwnedBy(t, j) }

  predicate Valid(t: Tables) { RowsNumbered(t) && MessagesReceipted(t) && ReceiptsNamed(t) && JobsOwned(t) }

  lemma AcceptNamesReceipts(t: Tables, e: Event)
    requires Valid(t)
    ensures ReceiptsNamed(Accept(t, e))
  {
    var u := Accept(t, e);
    forall m | m in u.receipts
      ensures exists k :: k in u.inbox && IsFirstOf(u, k, m, u.receipts[m])
    {
      if m in t.receipts {
        var k :| k in t.inbox && IsFirstOf(t, k, m, t.receipts[m]);
        assert k in u.inbox && IsFirstOf(u, k, m, u.receipts[m]);
      } else {
        assert e.key in u.inbox && IsFirstOf(u, e.key, m, u.receipts[m]);
      }
    }
  }

  lemma AcceptOwnsJobs(t: Tables, e: Event)
    requires Valid(t)
    ensures JobsOwned(Accept(t, e))
  {
    var u := Accept(t, e);
    forall j | j in u.jobs
      ensures j.key in u.inbox && OwnedBy(u, j)
    {
      if j in t.jobs { assert OwnedBy(t, j); }
    }
  }

  lemma AcceptKeepsValid(t: Tables, e: Event)
    requires Valid(t)
    ensures Valid(Accept(t, e))
  {
    AcceptNamesReceipts(t, e);
    AcceptOwnsJobs(t, e);
  }

  /** Accepting never forgets: rows, receipts and jobs only grow. */
  lemma AcceptGrows(t: Tables, e: Event, f: Event)
    requires Valid(t)
    ensures var u := Accept(t, e);
      && t.jobs <= u.jobs
      && (forall m :: m in t.receipts ==> m in u.receipts && u.receipts[m] == t.receipts[m])
      && (Recorded(t, f) ==> Recorded(u, f))
      && (Answer(t, e) != Conflict ==> Recorded(u, e))
  {}

  /** Whether receiving `e` is enough for `f` to be found again. */
  predicate Registers(e: Event, f: Event) {
    if f.identity.canonical then e.identity.canonical && MessageOf(e.identity) == MessageOf(f.identity) else e.key == f.key
  }

  /** What a receipt leaves recorded: what was, and what the event registers. */
  lemma AcceptRecordsExactly(t: Tables, e: Event, f: Event)
    requires Answer(t, e) != Conflict
    ensures Recorded(Accept(t, e), f) <==> Recorded(t, f) || Registers(e, f)
  {}

  function AcceptAll(t: Tables, events: seq<Event>): Tables
    decreases |events|
  {
    if events == [] then t else AcceptAll(Accept(t, events[0]), events[1..])
  }

  lemma {:induction false} AcceptAllKeepsValid(t: Tables, events: seq<Event>)
    requires Valid(t)
    ensures Valid(AcceptAll(t, events))
    decreases |events|
  {
    if events != [] {
      AcceptKeepsValid(t, events[0]);
      AcceptAllKeepsValid(Accept(t, events[0]), events[1..]);
    }
  }

  /** The jobs a message owns. */
  function JobsFor(t: Tables, m: Message): set<Job>
    requires Valid(t)
  {
    set j | j in t.jobs && t.inbox[j.key].identity.canonical && MessageOf(t.inbox[j.key].identity) == m
  }

  lemma AcceptFreezesJobs(t: Tables, e: Event, m: Message)
    requires Valid(t) && m in t.receipts
    ensures Valid(Accept(t, e)) && JobsFor(Accept(t, e), m) == JobsFor(t, m)
  {
    AcceptKeepsValid(t, e);
    var u := Accept(t, e);
    forall j | j in u.jobs && j !in t.jobs
      ensures !u.inbox[j.key].identity.canonical || MessageOf(u.inbox[j.key].identity) != m
    {
      assert j.key == e.key;
    }
    assert forall j :: j in t.jobs ==> u.inbox[j.key] == t.inbox[j.key];
  }

  /** Once a message has a receipt its jobs are settled: no later event, live or history,
      replayed, edited or under another key, adds to them. */
  lemma {:induction false} ReceiptFreezesJobs(t: Tables, events: seq<Event>, m: Message)
    requires Valid(t) && m in t.receipts
    ensures Valid(AcceptAll(t, events)) && m in AcceptAll(t, events).receipts
    ensures AcceptAll(t, events).receipts[m] == t.receipts[m]
    ensures JobsFor(AcceptAll(t, events), m) == JobsFor(t, m)
    decreases |events|
  {
    if events != [] {
      var u := Accept(t, events[0]);
      AcceptKeepsValid(t, events[0]);
      AcceptGrows(t, events[0], events[0]);
      AcceptFreezesJobs(t, events[0], m);
      ReceiptFreezesJobs(u, events[1..], m);
    }
  }

  /** Exactly once: in every sequence of receipts, a message that got in owns exactly one job
      per hook of the event that was first, all of one event, whatever came before or after. */
  lemma ExactlyOneJobPerHook(before: seq<Event>, e: Event, after: seq<Event>)
    requires e.identity.canonical
    requires Answer(AcceptAll(Empty(), before), e).First?
    ensures var t := AcceptAll(Empty(), before + [e] + after);
      && Valid(t) && MessageOf(e.identity) in t.receipts
      && JobsFor(t, MessageOf(e.identity)) == JobsOf(e, t.receipts[MessageOf(e.identity)])
  {
    var s := AcceptAll(Empty(), before);
    AcceptAllKeepsValid(Empty(), before);
    AcceptKeepsValid(s, e);
    var u := Accept(s, e);
    var m := MessageOf(e.identity);
    assert JobsFor(u, m) == JobsOf(e, u.receipts[m]);
    Append(Empty(), before + [e], after);
    Append(Empty(), before, [e]);
    assert AcceptAll(s, [e]) == AcceptAll(u, []) == u;
    ReceiptFreezesJobs(u, after, m);
  }

  predicate FirstOf(t: Tables, events: seq<Event>, i: nat, m: Message) {
    && i < |events| && events[i].identity.canonical && MessageOf(events[i].identity) == m
    && Answer(AcceptAll(t, events[..i]), events[i]).First?
  }

  /** A receipt is made by the first event of its message. */
  lemma FirstReceipt(t: Tables, e: Event, m: Message)
    requires Valid(t) && m !in t.receipts && m in Accept(t, e).receipts
    ensures e.identity.canonical && MessageOf(e.identity) == m && Answer(t, e).First?
    ensures Valid(Accept(t, e)) && JobsFor(Accept(t, e), m) == JobsOf(e, Accept(t, e).receipts[m])
  {
    AcceptKeepsValid(t, e);
    assert JobsFor(t, m) == {} by {
      forall j | j in t.jobs
        ensures !t.inbox[j.key].identity.canonical || MessageOf(t.inbox[j.key].identity) != m
      {
        assert OwnedBy(t, j);
      }
    }
  }

  /** Exactly once, for every message that got in: one of the events was its first, and the jobs
      it owns are one per hook of that event. */
  lemma {:induction false} EveryReceiptOwnsItsJobs(t: Tables, events: seq<Event>, m: Message) returns (i: nat)
    requires Valid(t) && m !in t.receipts && m in AcceptAll(t, events).receipts
    ensures FirstOf(t, events, i, m) && Valid(AcceptAll(t, events))
    ensures JobsFor(AcceptAll(t, events), m) == JobsOf(events[i], AcceptAll(t, events).receipts[m])
    decreases |events|
  {
    var u := Accept(t, events[0]);
    AcceptKeepsValid(t, events[0]);
    if m in u.receipts {
      FirstReceipt(t, events[0], m);
      ReceiptFreezesJobs(u, events[1..], m);
      i := 0;
    } else {
      var k := EveryReceiptOwnsItsJobs(u, events[1..], m);
      i := k + 1;
      assert events[..i][1..] == events[1..][..k];
    }
  }

  /** An event that is not the first receipt of its message creates no job and changes none. */
  lemma LaterReceiptsAddNoJobs(t: Tables, e: Event)
    requires Valid(t) && HasReceipt(t, e)
    ensures Accept(t, e).jobs == t.jobs && Accept(t, e).receipts == t.receipts
    ensures Answer(t, e) == Conflict
      || Answer(t, e) == Duplicate(t.receipts[MessageOf(e.identity)])
    ensures e.history ==> Answer(t, e) != Conflict
  {}

  lemma {:induction false} Append(t: Tables, a: seq<Event>, b: seq<Event>)
    ensures AcceptAll(t, a + b) == AcceptAll(AcceptAll(t, a), b)
    decreases |a|
  {
    if a == [] {
      assert a + b == b;
    } else {
      assert (a + b)[1..] == a[1..] + b;
      Append(Accept(t, a[0]), a[1..], b);
    }
  }

  /** The tables as the transaction updates them. */
  class Store {
    var inbox: map<string, Row>
    var receipts: map<Message, nat>
    var jobs: set<Job>
    var next: nat

    function Value(): Tables
      reads this
    {
      Tables(inbox, receipts, jobs, next)
    }

    constructor ()
      ensures Value() == Empty()
    {
      inbox, receipts, jobs, next := map[], map[], {}, 0;
    }

    /** Inserting a job that exists leaves the existing one. */
    method InsertJob(hook: string, key: string, event: nat)
      modifies this`jobs
      ensures jobs == old(jobs) + {Job(hook, key, event)}
    {
      jobs := jobs + {Job(hook, key, event)};
    }

    method AcceptInbound(e: Event) returns (r: Reply)
      requires Valid(Value())
      modifies this
      ensures r == Answer(old(Value()), e) && Value() == Accept(old(Value()), e)
    {
      var m := MessageOf(e.identity);
      var receipt := if e.identity.canonical && m in receipts then Some(receipts[m]) else None;
      var isNew := e.key !in inbox;
      var row := if isNew then Row(next, e.identity) else inbox[e.key];
      if row.identity != e.identity && !(receipt.Some? && e.history) { return Conflict; }
      if isNew {
        inbox := inbox[e.key := row];
        next := next + 1;
      }
      if e.identity.canonical && receipt.None? { receipts := receipts[m := row.id]; }
      if !isNew || receipt.Some? {
        return Duplicate(if receipt.Some? then receipt.value else row.id);
      }
      var i := 0;
      while i < |e.hooks|
        invariant 0 <= i <= |e.hooks|
        invariant jobs == old(jobs) + set h | h in e.hooks[..i] :: Job(h, e.key, row.id)
        invariant inbox == old(inbox)[e.key := row] && next == old(next) + 1
        invariant receipts == if e.identity.canonical then old(receipts)[m := row.id] else old(receipts)
      {
        InsertJob(e.hooks[i], e.key, row.id);
        assert e.hooks[..i + 1] == e.hooks[..i] + [e.hooks[i]];
        i := i + 1;
      }
      assert e.hooks[..i] == e.hooks;
      return First(row.id);
    }
  }
}
