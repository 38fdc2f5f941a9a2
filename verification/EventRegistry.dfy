/** Business event registration (src/server.mjs `normalizeEvent` and the events endpoint,
    src/core/forward-runtime.mjs `registerEvent` and `getEvent`, src/storage/forward-jobs.mjs
    `upsert`). Hashes stand for what they hash. */
module EventRegistry {
  import opened Prelude
  import opened CanonicalJson
  import opened CanonicalText

  const NUL: CodeUnit := 0

  // ---------- Events ----------

  datatype Event = Event(eventId: Text, producerId: Text, scope: Text, kind: Text, correlationId: Text,
                         occurredAt: Text, refIds: seq<Field>, prompt: Text)

  predicate IsLetterOrDigit(u: CodeUnit) { 48 <= u <= 57 || 65 <= u <= 90 || 97 <= u <= 122 }

  /** The event id pattern: a letter or digit, then letters, digits, dot, underscore, colon, dash. */
  predicate IsEventId(s: Text) {
    && 0 < |s| <= 128 && IsLetterOrDigit(s[0])
    && forall i :: 0 <= i < |s| ==> IsLetterOrDigit(s[i]) || s[i] in {46, 95, 58, 45}
  }

  /** What `normalizeEvent` lets through, as far as identity is concerned. A producer id is a
      configured hook id and may hold any characters. */
  predicate Accepted(e: Event) {
    && IsEventId(e.eventId) && DistinctKeys(e.refIds)
    && forall i :: 0 <= i < |e.refIds| ==> e.refIds[i].value.Str?
  }

  /** The object that is hashed. */
  function EventJson(e: Event): Json {
    Obj([Field(Units("eventId"), Str(e.eventId)), Field(Units("producerId"), Str(e.producerId)),
         Field(Units("scope"), Str(e.scope)), Field(Units("type"), Str(e.kind)),
         Field(Units("correlationId"), Str(e.correlationId)), Field(Units("occurredAt"), Str(e.occurredAt)),
         Field(Units("refIds"), Obj(e.refIds)), Field(Units("prompt"), Str(e.prompt))])
  }

  function RequestText(e: Event): Text { CanonicalTextOf(EventJson(e)) }

  lemma EventFieldsDistinct(e: Event)
    ensures DistinctKeys(EventJson(e).fields)
  {
    var f := EventJson(e).fields;
    assert f[1].key[0] == 'p' as int && f[5].key[0] == 'o' as int;
    assert f[6].key[0] == 'r' as int && f[7].key[0] == 'p' as int;
  }

  lemma EventJsonIsPlain(e: Event)
    requires Accepted(e)
    ensures WellFormed(EventJson(e)) && Finite(EventJson(e))
  {
    EventFieldsDistinct(e);
    var f := EventJson(e).fields;
    assert WellFormed(Obj(e.refIds)) && Finite(Obj(e.refIds));
    forall i | 0 <= i < |f|
      ensures WellFormed(f[i].value) && Finite(f[i].value)
    {
      assert i == 0 || i == 1 || i == 2 || i == 3 || i == 4 || i == 5 || i == 6 || i == 7;
    }
  }

  /** Two requests hash alike exactly when they are the same event: equal fields, and the same
      references whatever order they were listed in. */
  ghost predicate SameEvent(a: Event, b: Event) {
    && a == b.(refIds := a.refIds)
    && Same(Obj(a.refIds), Obj(b.refIds))
  }

  /** Objects with the same keys in the same places are equal up to key order exactly when their
      members are, place by place. */
  lemma SameInPlace(f: seq<Field>, g: seq<Field>)
    requires |f| == |g| && DistinctKeys(f) && DistinctKeys(g)
    requires forall i :: 0 <= i < |f| ==> f[i].key == g[i].key
    ensures Same(Obj(f), Obj(g)) <==> forall i :: 0 <= i < |f| ==> Same(f[i].value, g[i].value)
  {
    if Same(Obj(f), Obj(g)) {
      forall i | 0 <= i < |f|
        ensures Same(f[i].value, g[i].value)
      {
        var k :| 0 <= k < |g| && g[k].key == f[i].key && Same(f[i].value, g[k].value);
        assert k == i;
      }
    }
    if forall i :: 0 <= i < |f| ==> Same(f[i].value, g[i].value) {
      forall i | 0 <= i < |f|
        ensures exists k :: 0 <= k < |g| && g[k].key == f[i].key && Same(f[i].value, g[k].value)
      {
        assert g[i].key == f[i].key && Same(f[i].value, g[i].value);
      }
    }
  }

  function ValueAt(e: Event, i: nat): Json {
    if i == 0 then Str(e.eventId) else if i == 1 then Str(e.producerId) else if i == 2 then Str(e.scope)
    else if i == 3 then Str(e.kind) else if i == 4 then Str(e.correlationId) else if i == 5 then Str(e.occurredAt)
    else if i == 6 then Obj(e.refIds) else Str(e.prompt)
  }

  lemma EventFieldAt(e: Event, i: nat)
    requires i < 8
    ensures |EventJson(e).fields| == 8 && EventJson(e).fields[i].value == ValueAt(e, i)
  {}

  lemma EventKeysAlike(a: Event, b: Event)
    ensures var f, g := EventJson(a).fields, EventJson(b).fields;
      |f| == |g| == 8 && forall i :: 0 <= i < |f| ==> f[i].key == g[i].key
  {}

  lemma EventJsonSame(a: Event, b: Event)
    ensures Same(EventJson(a), EventJson(b)) <==> SameEvent(a, b)
  {
    var f, g := EventJson(a).fields, EventJson(b).fields;
    EventFieldsDistinct(a);
    EventFieldsDistinct(b);
    EventKeysAlike(a, b);
    SameInPlace(f, g);
    forall i: nat | i < 8
      ensures f[i].value == ValueAt(a, i) && g[i].value == ValueAt(b, i)
    {
      EventFieldAt(a, i);
      EventFieldAt(b, i);
    }
    SameValues(a, b);
    assert (forall i :: 0 <= i < |f| ==> Same(f[i].value, g[i].value)) <==> AllSame(a, b);
  }

  ghost predicate AllSame(a: Event, b: Event) { forall i: nat :: i < 8 ==> Same(ValueAt(a, i), ValueAt(b, i)) }

  lemma SameValues(a: Event, b: Event)
    ensures AllSame(a, b) <==> SameEvent(a, b)
  {
    if AllSame(a, b) {
      assert Same(ValueAt(a, 0), ValueAt(b, 0)) && Same(ValueAt(a, 1), ValueAt(b, 1));
      assert Same(ValueAt(a, 2), ValueAt(b, 2)) && Same(ValueAt(a, 3), ValueAt(b, 3));
      assert Same(ValueAt(a, 4), ValueAt(b, 4)) && Same(ValueAt(a, 5), ValueAt(b, 5));
      assert Same(ValueAt(a, 6), ValueAt(b, 6)) && Same(ValueAt(a, 7), ValueAt(b, 7));
    }
  }

  lemma RequestTextDecidesEvents(a: Event, b: Event)
    requires Accepted(a) && Accepted(b)
    ensures RequestText(a) == RequestText(b) <==> SameEvent(a, b)
  {
    EventJsonIsPlain(a);
    EventJsonIsPlain(b);
    CanonicalTextExact(EventJson(a), EventJson(b));
    EventJsonSame(a, b);
  }

  // ---------- Keys ----------

  predicate NoNul(s: Text) { forall i :: 0 <= i < |s| ==> s[i] != NUL }

  function IdempotencyKey(producer: Text, event: Text): Text { Units("event") + [NUL] + producer + [NUL] + event }

  /** What is hashed into the table's unique request key. */
  function RequestKey(caller: Text, idempotencyKey: Text): Text { caller + [NUL] + idempotencyKey }

  function EventKey(producer: Text, event: Text): Text { RequestKey(producer, IdempotencyKey(producer, event)) }

  function MessageId(producer: Text, event: Text): Text { Units("event:") + (producer + [NUL] + event) }

  lemma EventIdHasNoNul(s: Text)
    requires IsEventId(s)
    ensures NoNul(s)
  {}

  lemma NulInTail(a: Text, b: Text, x: Text, y: Text)
    requires a + [NUL] + x == b + [NUL] + y && |a| < |b|
    ensures |b| - |a| - 1 < |x| && x[|b| - |a| - 1] == NUL
  {
    assert (b + [NUL] + y)[|b|] == NUL;
    assert (a + [NUL] + x)[|b|] == x[|b| - |a| - 1];
  }

  /** A text that ends in NUL and a NUL-free part splits in one way only. */
  lemma SplitAtLastNul(a: Text, b: Text, x: Text, y: Text)
    requires NoNul(x) && NoNul(y) && a + [NUL] + x == b + [NUL] + y
    ensures a == b && x == y
  {
    if |a| < |b| {
      NulInTail(a, b, x, y);
      assert false;
    }
    if |b| < |a| {
      NulInTail(b, a, y, x);
      assert false;
    }
    var s := a + [NUL] + x;
    assert a == s[..|a|] && b == s[..|a|];
    assert x == s[|a| + 1..] && y == s[|a| + 1..];
  }

  /** The keys tell accepted pairs apart, though a producer id may hold NULs itself: the event
      id holds none. */
  lemma KeysAreInjective(p: Text, e: Text, q: Text, f: Text)
    requires IsEventId(e) && IsEventId(f)
    ensures IdempotencyKey(p, e) == IdempotencyKey(q, f) <==> p == q && e == f
    ensures MessageId(p, e) == MessageId(q, f) <==> p == q && e == f
    ensures EventKey(p, e) == EventKey(q, f) <==> p == q && e == f
  {
    EventIdHasNoNul(e);
    EventIdHasNoNul(f);
    var tag := Units("event") + [NUL];
    if IdempotencyKey(p, e) == IdempotencyKey(q, f) {
      SplitAtLastNul(tag + p, tag + q, e, f);
      assert p == (tag + p)[|tag|..] && q == (tag + q)[|tag|..];
    }
    if MessageId(p, e) == MessageId(q, f) {
      var head := Units("event:");
      assert p + [NUL] + e == MessageId(p, e)[|head|..] && q + [NUL] + f == MessageId(q, f)[|head|..];
      SplitAtLastNul(p, q, e, f);
    }
    if EventKey(p, e) == EventKey(q, f) {
      EventKeysAgree(p, e, q, f);
    }
  }

  lemma EventKeysAgree(p: Text, e: Text, q: Text, f: Text)
    requires NoNul(e) && NoNul(f) && EventKey(p, e) == EventKey(q, f)
    ensures p == q && e == f
  {
    var tag := Units("event") + [NUL];
    var a, b := p + [NUL] + tag + p, q + [NUL] + tag + q;
    assert EventKey(p, e) == a + [NUL] + e;
    assert EventKey(q, f) == b + [NUL] + f;
    SplitAtLastNul(a, b, e, f);
    assert |p| == |q|;
    assert p == a[..|p|] && q == b[..|q|];
  }

  /** The pattern is what makes them so: were NULs allowed in event ids, keys would collide. */
  lemma NulInEventIdWouldCollide(p: Text, e: Text, f: Text)
    ensures IdempotencyKey(p, e + [NUL] + f) == IdempotencyKey(p + [NUL] + e, f)
    ensures e != [] ==> p != p + [NUL] + e
  {
    var tag := Units("event") + [NUL];
    assert tag + p + [NUL] + (e + [NUL] + f) == tag + (p + [NUL] + e) + [NUL] + f;
  }

  const COLON_UNIT: CodeUnit := 58
  const LETTER_A: CodeUnit := 97

  /** The key of a conversation prompt joins the chat and the request id with a colon, which both
      may contain. */
  function PromptKey(chat: Text, request: Text): Text { chat + [COLON_UNIT] + request }

  /** Two prompts share a key exactly when they are the same, or one chat id is the other with a
      colon and the front of the other request id appended. */
  lemma PromptKeysCollideExactly(c: Text, r: Text, d: Text, q: Text)
    requires |c| <= |d|
    ensures PromptKey(c, r) == PromptKey(d, q) <==>
      (c == d && r == q) || (|c| < |d| && exists x :: d == c + [COLON_UNIT] + x && r == x + [COLON_UNIT] + q)
  {
    var s, t := PromptKey(c, r), PromptKey(d, q);
    if s == t {
      assert c == s[..|c|] && s[..|c|] == t[..|c|] == d[..|c|];
      if |c| == |d| {
        assert r == s[|c| + 1..] && q == t[|d| + 1..];
      } else {
        assert d[|c|] == t[|c|] == s[|c|] == COLON_UNIT;
        var x := d[|c| + 1..];
        assert d == c + [COLON_UNIT] + x;
        assert r == s[|c| + 1..] && s[|c| + 1..] == t[|c| + 1..] == x + [COLON_UNIT] + q;
      }
    }
    if |c| < |d| && exists x :: d == c + [COLON_UNIT] + x && r == x + [COLON_UNIT] + q {
      var x :| d == c + [COLON_UNIT] + x && r == x + [COLON_UNIT] + q;
      assert c + [COLON_UNIT] + (x + [COLON_UNIT] + q) == c + [COLON_UNIT] + x + [COLON_UNIT] + q;
    }
  }

  /** The request ids that are accepted are among them: the key of "a:" and a request id of one chat
      is that of the rest of it in another. */
  lemma AcceptedPromptsCollide(chat: Text, request: Text)
    requires IsEventId(request) && |request| <= 126
    ensures var longer := [LETTER_A, COLON_UNIT] + request;
      && IsEventId(longer) && chat != chat + [COLON_UNIT, LETTER_A]
      && PromptKey(chat, longer) == PromptKey(chat + [COLON_UNIT, LETTER_A], request)
  {
    var longer := [LETTER_A, COLON_UNIT] + request;
    var other := chat + [COLON_UNIT, LETTER_A];
    assert other == chat + [COLON_UNIT] + [LETTER_A] && longer == [LETTER_A] + [COLON_UNIT] + request;
    PromptKeysCollideExactly(chat, longer, other, request);
    assert |chat| < |other|;
  }

  // ---------- The job table ----------

  datatype Job = Job(id: nat, request: Text, caller: Text, namespace: Text, messageId: Text)

  /** Rows by request key; message ids are unique too. */
  datatype Table = Table(rows: map<Text, Job>, next: nat)

  datatype Upsert = Stored(job: Job, duplicate: bool) | JobConflict

  predicate MessageTaken(t: Table, messageId: Text) { exists k :: k in t.rows && t.rows[k].messageId == messageId }

  /** INSERT IGNORE and read back by key: an equal request finds its row, any other conflicts. */
  function UpsertAnswer(t: Table, key: Text, j: Job): Upsert {
    if key in t.rows then if t.rows[key].request == j.request then Stored(t.rows[key], true) else JobConflict
    else if MessageTaken(t, j.messageId) then JobConflict
    else Stored(j.(id := t.next), false)
  }

  function UpsertTable(t: Table, key: Text, j: Job): Table {
    if key in t.rows || MessageTaken(t, j.messageId) then t else Table(t.rows[key := j.(id := t.next)], t.next + 1)
  }

  /** How pairs and events are turned into keys, message ids and request texts. */
  datatype Coding = Coding(key: (Text, Text) -> Text, message: (Text, Text) -> Text, request: Event -> Text)

  const EVENTS: Coding := Coding(EventKey, MessageId, RequestText)

  /** All that the registry needs of a coding. */
  ghost predicate Faithful(c: Coding) {
    && (forall p, e, q, f :: IsEventId(e) && IsEventId(f) && c.key(p, e) == c.key(q, f) ==> p == q && e == f)
    && (forall p, e, q, f :: IsEventId(e) && IsEventId(f) && c.message(p, e) == c.message(q, f) ==> p == q && e == f)
    && (forall a, b :: Accepted(a) && Accepted(b) ==> (c.request(a) == c.request(b) <==> SameEvent(a, b)))
  }

  lemma EventsAreFaithful()
    ensures Faithful(EVENTS)
  {
    forall p, e, q, f | IsEventId(e) && IsEventId(f)
      ensures EVENTS.key(p, e) == EVENTS.key(q, f) ==> p == q && e == f
      ensures EVENTS.message(p, e) == EVENTS.message(q, f) ==> p == q && e == f
    {
      KeysAreInjective(p, e, q, f);
    }
    forall a, b | Accepted(a) && Accepted(b)
      ensures EVENTS.request(a) == EVENTS.request(b) <==> SameEvent(a, b)
    {
      RequestTextDecidesEvents(a, b);
    }
  }

  function JobOf(c: Coding, e: Event): Job { Job(0, c.request(e), e.producerId, e.scope, c.message(e.producerId, e.eventId)) }

  function KeyOf(c: Coding, e: Event): Text { c.key(e.producerId, e.eventId) }

  datatype Answer = Accepted202(job: nat, deduplicated: bool) | EventConflict

  function Register(c: Coding, t: Table, e: Event): Answer {
    var r := UpsertAnswer(t, KeyOf(c, e), JobOf(c, e));
    if r.JobConflict? || r.job.messageId != JobOf(c, e).messageId || r.job.caller != e.producerId
      || r.job.namespace != e.scope
    then EventConflict
    else Accepted202(r.job.id, r.duplicate)
  }

  function Registered(c: Coding, t: Table, e: Event): Table { UpsertTable(t, KeyOf(c, e), JobOf(c, e)) }

  /** `getEvent`: the caller's own job of that event id, or none. */
  function Status(c: Coding, t: Table, producer: Text, eventId: Text): Option<nat> {
    var key := c.key(producer, eventId);
    if key in t.rows && t.rows[key].messageId == c.message(producer, eventId) && t.rows[key].caller == producer then
      Some(t.rows[key].id)
    else None
  }

  /** Registering one event after another. */
  function RegisterAll(c: Coding, t: Table, events: seq<Event>): Table
    decreases |events|
  {
    if events == [] then t else RegisterAll(c, Registered(c, t, events[0]), events[1..])
  }

  /** The first registration of this pair, if there was one. */
  function FirstOf(events: seq<Event>, producer: Text, eventId: Text): (r: Option<Event>)
    ensures r.Some? ==> r.value.producerId == producer && r.value.eventId == eventId
  {
    if events == [] then None
    else if events[0].producerId == producer && events[0].eventId == eventId then Some(events[0])
    else FirstOf(events[1..], producer, eventId)
  }

  predicate AllAccepted(events: seq<Event>) { forall i :: 0 <= i < |events| ==> Accepted(events[i]) }

  /** The job of a registered pair, made from its first event. */
  ghost predicate PairHolds(c: Coding, t: Table, done: seq<Event>, p: Text, e: Text) {
    var k := c.key(p, e);
    && (k in t.rows <==> FirstOf(done, p, e).Some?)
    && (k in t.rows ==> t.rows[k] == JobOf(c, FirstOf(done, p, e).value).(id := t.rows[k].id))
  }

  ghost predicate IsKey(c: Coding, k: Text, p: Text, e: Text) { IsEventId(e) && k == c.key(p, e) }

  /** The table holds exactly one job for each pair registered so far. */
  ghost predicate Holds(c: Coding, t: Table, done: seq<Event>) {
    && (forall p, e :: IsEventId(e) ==> PairHolds(c, t, done, p, e))
    && (forall k :: k in t.rows ==> t.rows[k].id < t.next && exists p, e :: IsKey(c, k, p, e))
    && (forall k, l :: k in t.rows && l in t.rows && t.rows[k].id == t.rows[l].id ==> k == l)
  }

  lemma {:induction false} FirstOfAppends(done: seq<Event>, x: Event, p: Text, e: Text)
    ensures FirstOf(done + [x], p, e) == if FirstOf(done, p, e).Some? then FirstOf(done, p, e)
      else if x.producerId == p && x.eventId == e then Some(x) else None
  {
    if done == [] {
      assert (done + [x])[1..] == [];
    } else {
      assert (done + [x])[1..] == done[1..] + [x];
      FirstOfAppends(done[1..], x, p, e);
    }
  }

  lemma MessageIsFree(c: Coding, t: Table, done: seq<Event>, x: Event)
    requires Faithful(c) && Holds(c, t, done) && Accepted(x) && KeyOf(c, x) !in t.rows
    ensures !MessageTaken(t, JobOf(c, x).messageId)
  {
    forall k | k in t.rows
      ensures t.rows[k].messageId != JobOf(c, x).messageId
    {
      var p, e :| IsKey(c, k, p, e);
      assert PairHolds(c, t, done, p, e);
    }
  }

  lemma RegisterHolds(c: Coding, t: Table, done: seq<Event>, x: Event)
    requires Faithful(c) && Holds(c, t, done) && Accepted(x)
    ensures Holds(c, Registered(c, t, x), done + [x])
  {
    var u := Registered(c, t, x);
    if KeyOf(c, x) !in t.rows { MessageIsFree(c, t, done, x); }
    forall p, e | IsEventId(e)
      ensures PairHolds(c, u, done + [x], p, e)
    {
      assert PairHolds(c, t, done, p, e) && PairHolds(c, t, done, x.producerId, x.eventId);
      FirstOfAppends(done, x, p, e);
    }
    forall k | k in u.rows
      ensures u.rows[k].id < u.next && exists p, e :: IsKey(c, k, p, e)
    {
      if k !in t.rows { assert IsKey(c, k, x.producerId, x.eventId); }
    }
  }

  lemma {:induction false} RegisterAllHolds(c: Coding, t: Table, done: seq<Event>, events: seq<Event>)
    requires Faithful(c) && Holds(c, t, done) && AllAccepted(events)
    ensures Holds(c, RegisterAll(c, t, events), done + events)
    decreases |events|
  {
    if events == [] {
      assert done + events == done;
    } else {
      RestAccepted(events);
      RegisterHolds(c, t, done, events[0]);
      RegisterAllHolds(c, Registered(c, t, events[0]), done + [events[0]], events[1..]);
      assert done + events == done + [events[0]] + events[1..];
    }
  }

  lemma RestAccepted(events: seq<Event>)
    requires events != [] && AllAccepted(events)
    ensures AllAccepted(events[1..])
  {
    var rest := events[1..];
    forall i | 0 <= i < |rest| ensures Accepted(rest[i]) { assert rest[i] == events[i + 1]; }
  }

  function Empty(): Table { Table(map[], 0) }

  /** After any sequence of accepted events the table is that of their first registrations. */
  lemma TableHolds(c: Coding, events: seq<Event>)
    requires Faithful(c) && AllAccepted(events)
    ensures Holds(c, RegisterAll(c, Empty(), events), events)
  {
    RegisterAllHolds(c, Empty(), [], events);
    assert [] + events == events;
  }

  lemma {:induction false} FirstIsAccepted(events: seq<Event>, p: Text, e: Text)
    requires AllAccepted(events) && FirstOf(events, p, e).Some?
    ensures Accepted(FirstOf(events, p, e).value)
  {
    if !(events[0].producerId == p && events[0].eventId == e) {
      RestAccepted(events);
      FirstIsAccepted(events[1..], p, e);
    }
  }

  lemma AnswersFit(c: Coding, events: seq<Event>, x: Event)
    requires Faithful(c) && AllAccepted(events) && Accepted(x)
    ensures var t := RegisterAll(c, Empty(), events);
      var first := FirstOf(events, x.producerId, x.eventId);
      && (first.None? ==>
        && Register(c, t, x) == Accepted202(t.next, false)
        && (forall k :: k in t.rows ==> t.rows[k].id != t.next && k in Registered(c, t, x).rows && Registered(c, t, x).rows[k] == t.rows[k]))
      && (first.Some? && SameEvent(first.value, x) ==>
        KeyOf(c, x) in t.rows && Register(c, t, x) == Accepted202(t.rows[KeyOf(c, x)].id, true) && Registered(c, t, x) == t)
      && (first.Some? && !SameEvent(first.value, x) ==> Register(c, t, x) == EventConflict && Registered(c, t, x) == t)
  {
    var t := RegisterAll(c, Empty(), events);
    TableHolds(c, events);
    assert PairHolds(c, t, events, x.producerId, x.eventId);
    var first := FirstOf(events, x.producerId, x.eventId);
    if first.None? {
      MessageIsFree(c, t, events, x);
    } else {
      FirstIsAccepted(events, x.producerId, x.eventId);
    }
  }

  /** Idempotent registration: after any sequence of requests, a new pair gets a job of its own;
      a request equal to the pair's first one returns that job; any other conflicts. Neither of
      the last two changes the table. */
  lemma RegistrationIsIdempotent(events: seq<Event>, x: Event)
    requires AllAccepted(events) && Accepted(x)
    ensures var t := RegisterAll(EVENTS, Empty(), events);
      var u := Registered(EVENTS, t, x);
      var first := FirstOf(events, x.producerId, x.eventId);
      && (first.None? ==>
        && Register(EVENTS, t, x) == Accepted202(t.next, false)
        && (forall k :: k in t.rows ==> t.rows[k].id != t.next && k in u.rows && u.rows[k] == t.rows[k]))
      && (first.Some? && SameEvent(first.value, x) ==>
        && KeyOf(EVENTS, x) in t.rows
        && Register(EVENTS, t, x) == Accepted202(t.rows[KeyOf(EVENTS, x)].id, true) && u == t)
      && (first.Some? && !SameEvent(first.value, x) ==> Register(EVENTS, t, x) == EventConflict && u == t)
  {
    EventsAreFaithful();
    AnswersFit(EVENTS, events, x);
  }

  lemma PairsFit(c: Coding, events: seq<Event>, p: Text, e: Text, q: Text, f: Text)
    requires Faithful(c) && AllAccepted(events) && IsEventId(e) && IsEventId(f)
    ensures var t := RegisterAll(c, Empty(), events);
      && (Status(c, t, p, e).Some? <==> FirstOf(events, p, e).Some?)
      && (Status(c, t, p, e).Some? && Status(c, t, p, e) == Status(c, t, q, f) ==> p == q && e == f)
  {
    var t := RegisterAll(c, Empty(), events);
    TableHolds(c, events);
    assert PairHolds(c, t, events, p, e) && PairHolds(c, t, events, q, f);
  }

  /** Every accepted pair owns exactly one job, no two pairs the same one, and a status read
      answers with the caller's own job of that event or with nothing. */
  lemma EachPairOwnsOneJob(events: seq<Event>, p: Text, e: Text, q: Text, f: Text)
    requires AllAccepted(events) && IsEventId(e) && IsEventId(f)
    ensures var t := RegisterAll(EVENTS, Empty(), events);
      && (Status(EVENTS, t, p, e).Some? <==> FirstOf(events, p, e).Some?)
      && (Status(EVENTS, t, p, e).Some? && Status(EVENTS, t, p, e) == Status(EVENTS, t, q, f) ==> p == q && e == f)
  {
    EventsAreFaithful();
    PairsFit(EVENTS, events, p, e, q, f);
  }

  // ---------- The table, updated in place ----------

  class ForwardJobs {
    var rows: map<Text, Job>
    var next: nat

    function Value(): Table
      reads this
    {
      Table(rows, next)
    }

    /** Run ids are never reused. */
    predicate Valid()
      reads this
    {
      forall k :: k in rows ==> rows[k].id < next
    }

    constructor ()
      ensures Value() == Empty() && Valid()
    {
      rows, next := map[], 0;
    }

    method UpsertJob(key: Text, j: Job) returns (r: Upsert)
      requires Valid()
      modifies this
      ensures Valid() && r == UpsertAnswer(old(Value()), key, j) && Value() == UpsertTable(old(Value()), key, j)
    {
      var publicRunId := next;
      if key !in rows && !MessageTaken(Value(), j.messageId) {
        rows := rows[key := j.(id := publicRunId)];
        next := next + 1;
      }
      if key !in rows || rows[key].request != j.request { return JobConflict; }
      r := Stored(rows[key], rows[key].id != publicRunId);
    }

    method RegisterEvent(c: Coding, e: Event) returns (a: Answer)
      requires Valid()
      modifies this
      ensures Valid() && a == Register(c, old(Value()), e) && Value() == Registered(c, old(Value()), e)
    {
      var messageId := c.message(e.producerId, e.eventId);
      var r := UpsertJob(KeyOf(c, e), Job(0, c.request(e), e.producerId, e.scope, messageId));
      if r.JobConflict? || r.job.messageId != messageId || r.job.caller != e.producerId || r.job.namespace != e.scope {
        return EventConflict;
      }
      return Accepted202(r.job.id, r.duplicate);
    }
  }
}
