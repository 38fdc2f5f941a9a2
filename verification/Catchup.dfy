/** Receive-gap catch-up of one conversation (src/core/catchup.mjs) over a versioned cursor row
    (src/storage/store.mjs, `setCursor`) and the deduplicating inbox.

    Every awaited operation is one step. A run may die at any of them, alone or with its process;
    a cursor write whose answer was lost may still be applied at any later time, or never.
    Receipts from elsewhere, live or late, and clock changes may fall between any two steps.

    Messages are handed to `ingest` (src/core/communication-runtime.mjs), which answers without a
    receipt when the same message is being received already, or when private admission refuses
    it. Catch-up does not look at the answer. */
module Catchup {
  import opened Prelude
  import Inbound

  // ---------- The platform ----------

  /** A message as history shows it; `skip` marks the bot's and other apps' own messages. */
  datatype Item = Item(event: Inbound.Event, skip: bool, created: int, visible: int)

  /** The pages of one fixed window, and the token that leads to each page after the first. */
  datatype Listing = Listing(pages: seq<seq<Item>>, tokens: seq<string>)

  datatype World = World(history: set<Item>, listing: (int, int) -> Listing,
                         overlapMs: nat, lookbackMs: nat, maxPages: nat)

  predicate IsToken(t: string) { 0 < |t| <= 512 }

  predicate WellListed(l: Listing) {
    && |l.pages| == |l.tokens| + 1
    && (forall i :: 0 <= i < |l.pages| ==> |l.pages[i]| <= 50)
    && (forall i :: 0 <= i < |l.tokens| ==> IsToken(l.tokens[i]))
    && (forall i, j :: 0 <= i < j < |l.tokens| ==> l.tokens[i] != l.tokens[j])
  }

  /** What an event is about: all observations of one message are about it, whatever their
      content; an event that is no message is known by its key. */
  datatype Topic = OfMessage(message: Inbound.Message) | OfKey(key: string)

  function TopicOf(e: Inbound.Event): Topic {
    if e.identity.canonical then OfMessage(Inbound.MessageOf(e.identity)) else OfKey(e.key)
  }

  /** One page may show an item in another wording than another page of another window. */
  predicate Shows(shown: Item, it: Item) { shown.skip == it.skip && TopicOf(shown.event) == TopicOf(it.event) }

  predicate ShowsAt(l: Listing, i: int, shown: Item, it: Item) {
    0 <= i < |l.pages| && shown in l.pages[i] && Shows(shown, it)
  }

  ghost predicate Listed(l: Listing, it: Item) { exists i, shown :: ShowsAt(l, i, shown, it) }

  /** What is assumed of the platform: a fixed window has one stable listing, which shows every
      message created in it and visible by its end; no message becomes visible later than the
      overlap after it was created. */
  ghost predicate Stable(w: World) {
    && w.maxPages > 0
    && (forall a, b :: WellListed(w.listing(a, b)))
    && (forall it :: it in w.history ==> 0 <= it.created <= it.visible <= it.created + w.overlapMs)
    && (forall it, a, b :: it in w.history && a <= it.created <= b && it.visible <= b ==> Listed(w.listing(a, b), it))
  }

  /** The page a token leads to; past the end when the listing has no such token. */
  function Position(l: Listing, token: string): (p: nat)
    requires |l.pages| == |l.tokens| + 1
    ensures p < |l.pages| && p > 0 ==> l.tokens[p - 1] == token
  {
    if token == "" then 0 else FindToken(l.tokens, token, 0) + 1
  }

  function FindToken(tokens: seq<string>, token: string, from: nat): (p: nat)
    requires from <= |tokens|
    ensures from <= p <= |tokens|
    ensures p < |tokens| ==> tokens[p] == token
    ensures forall i :: from <= i < p ==> tokens[i] != token
    decreases |tokens| - from
  {
    if from == |tokens| || tokens[from] == token then from else FindToken(tokens, token, from + 1)
  }

  lemma PositionOfToken(l: Listing, i: nat)
    requires WellListed(l) && i < |l.tokens|
    ensures Position(l, l.tokens[i]) == i + 1
  {}

  /** An answer; an item that is not this conversation's message is `None`. */
  datatype Response = Garbage | Page(items: seq<Option<Item>>, hasMore: bool, token: string)

  /** The checks made on a page before any of it is used. */
  predicate PageOk(r: Response, seen: set<string>) {
    && r.Page? && |r.items| <= 50
    && (r.hasMore ==> IsToken(r.token) && r.token !in seen)
    && (forall i :: 0 <= i < |r.items| ==> r.items[i].Some?)
  }

  // ---------- State ----------

  datatype Window = Window(startMs: int, endMs: int, pageToken: string)

  datatype CursorValue = CursorValue(throughMs: int, window: Option<Window>)

  datatype Row = Row(version: nat, value: CursorValue)

  datatype Pc =
    | Read
    | SaveFirst(value: CursorValue)
    | Fetch
    | SaveIdle(value: CursorValue)
    | SaveOpening(value: CursorValue, response: Response)
    | Emit(todo: seq<Item>, response: Response)
    | SavePage(value: CursorValue)
  {
    predicate Saves() { SaveFirst? || SaveIdle? || SaveOpening? || SavePage? }
  }

  /** The locals of `conversationRun`. */
  datatype Worker = Worker(pc: Pc, version: nat, cursor: Option<CursorValue>, opening: Option<CursorValue>,
                           tokens: set<string>, page: nat)

  /** A compare-and-set whose sender has given up; `basis` is what the sender had read. */
  datatype Write = Write(version: nat, basis: Option<CursorValue>, value: CursorValue)

  /** The inbox, and what is remembered of how it came about: the receipts applied to it in order,
      and what an emission was answered about without a receipt, being received already or refused. */
  datatype Record = Record(tables: Inbound.Tables, log: seq<Inbound.Event>, inFlight: set<Topic>, refused: set<Topic>)

  /** `origin` remembers where the first window started. `processing` holds the ids of messages
      being received, in the memory of the process. */
  datatype State = State(now: nat, row: Option<Row>, origin: Option<int>, late: set<Write>,
                         processing: set<string>, record: Record, worker: Option<Worker>)

  /** How `ingest` goes for a message that is not being received: it is registered (or in conflict,
      which is an error), refused, or still going on when the run gives up waiting. */
  datatype Outcome = Registered | Refused | Hangs

  datatype Action =
    | Begin
    | ReadCursor
    | FetchAnswer(response: Response)
    | EmitNext(outcome: Outcome)
    | SaveCursor
    | Die
    | Crash
    | LateWrite(write: Write)
    | ReceiptBegins(event: Inbound.Event)
    | Receipt(event: Inbound.Event)
    | ReceiptEnds(messageId: string)
    | SetClock(now: nat)

  function RowVersion(s: State): nat { if s.row.Some? then s.row.value.version else 0 }

  function RowValue(s: State): Option<CursorValue> { if s.row.Some? then Some(s.row.value.value) else None }

  /** The window of the value the run is working on. */
  predicate HasWindow(x: Worker) {
    if x.opening.Some? then x.opening.value.window.Some? else x.cursor.Some? && x.cursor.value.window.Some?
  }

  function Current(x: Worker): Window
    requires HasWindow(x)
  {
    if x.opening.Some? then x.opening.value.window.value else x.cursor.value.window.value
  }

  function FloorSecond(ms: int): int { ms / 1000 * 1000 }

  /** The window a run opens, or none when the clock is behind it. */
  function Opened(w: World, cursor: Option<CursorValue>, now: nat): Option<CursorValue> {
    var endMs := FloorSecond(now);
    var startMs := FloorSecond(Max(0, if cursor.Some? then cursor.value.throughMs - w.overlapMs else endMs - w.lookbackMs));
    if startMs > endMs then None
    else Some(CursorValue(if cursor.Some? then cursor.value.throughMs else startMs, Some(Window(startMs, endMs, ""))))
  }

  function Closed(win: Window): CursorValue { CursorValue(win.endMs, None) }

  // ---------- Steps ----------

  function Stopped(s: State): State { s.(worker := None) }

  function Go(s: State, x: Worker): State { s.(worker := Some(x)) }

  function OnRead(w: World, s: State, x: Worker): State {
    var y := x.(version := RowVersion(s), cursor := RowValue(s));
    if y.cursor.Some? && y.cursor.value.window.Some? then
      Go(s, y.(pc := Fetch, tokens := {y.cursor.value.window.value.pageToken}))
    else
      var derived := Opened(w, y.cursor, s.now);
      if derived.None? then Stopped(s)
      else if y.cursor.Some? then Go(s, y.(pc := Fetch, opening := derived, tokens := {""}))
      else Go(s, y.(pc := SaveFirst(derived.value), tokens := {""}))
  }

  function Unwrap(items: seq<Option<Item>>): (r: seq<Item>)
    requires forall i :: 0 <= i < |items| ==> items[i].Some?
    ensures |r| == |items| && forall i :: 0 <= i < |r| ==> items[i] == Some(r[i])
  {
    seq(|items|, i requires 0 <= i < |items| => items[i].value)
  }

  /** The whole page is checked before any record of it is emitted. */
  function Check(s: State, x: Worker, r: Response): State {
    if PageOk(r, x.tokens) then Go(s, x.(pc := Emit(Unwrap(r.items), r))) else Stopped(s)
  }

  function OnFetch(s: State, x: Worker, r: Response): State
    requires HasWindow(x)
  {
    if x.opening.Some? then
      if r.Page? && r.items == [] && !r.hasMore then Go(s, x.(pc := SaveIdle(Closed(Current(x)))))
      else Go(s, x.(pc := SaveOpening(x.opening.value, r)))
    else Check(s, x, r)
  }

  /** The transaction of one receipt; a conflict rolls it back. */
  function Register(r: Record, e: Inbound.Event): Record {
    if Inbound.Answer(r.tables, e) == Inbound.Conflict then r
    else r.(tables := Inbound.Accept(r.tables, e), log := r.log + [e])
  }

  function MessageId(it: Item): string { it.event.identity.messageId }

  /** An emission is one step, taken at its answer: until then its own entry in `processing` keeps
      every other receipt of the message out. */
  function OnEmit(s: State, x: Worker, outcome: Outcome): State
    requires x.pc.Emit? && x.pc.response.Page? && HasWindow(x) && x.cursor.Some?
  {
    if x.pc.todo == [] then
      if !x.pc.response.hasMore then Go(s, x.(pc := SavePage(Closed(Current(x)))))
      else
        var token := x.pc.response.token;
        Go(s, x.(tokens := x.tokens + {token},
                 pc := SavePage(x.cursor.value.(window := Some(Current(x).(pageToken := token))))))
    else
      var it := x.pc.todo[0];
      var rest := x.(pc := x.pc.(todo := x.pc.todo[1..]));
      if it.skip then Go(s, rest)
      else if MessageId(it) in s.processing then
        Go(s.(record := s.record.(inFlight := s.record.inFlight + {TopicOf(it.event)})), rest)
      else
        match outcome
        case Registered =>
          if Inbound.Answer(s.record.tables, it.event) == Inbound.Conflict then Stopped(s)
          else Go(s.(record := Register(s.record, it.event)), rest)
        case Refused => Go(s.(record := s.record.(refused := s.record.refused + {TopicOf(it.event)})), rest)
        case Hangs => Stopped(s.(processing := s.processing + {MessageId(it)}))
  }

  /** Applying a compare-and-set that matches. */
  function Store(s: State, value: CursorValue): State {
    s.(row := Some(Row(RowVersion(s) + 1, value)),
       origin := if s.row.Some? then s.origin else if value.window.Some? then Some(value.window.value.startMs) else None)
  }

  function OnSave(w: World, s: State, x: Worker): State
    requires x.pc.Saves()
  {
    if x.version != RowVersion(s) then Stopped(s)
    else
      var t := Store(s, x.pc.value);
      var y := x.(version := x.version + 1, cursor := Some(x.pc.value), opening := None);
      match x.pc
      case SaveFirst(_) => Go(t, y.(pc := Fetch))
      case SaveIdle(_) => Stopped(t)
      case SaveOpening(_, r) => Check(t, y, r)
      case SavePage(value) =>
        if value.window.None? || x.page + 1 >= w.maxPages then Stopped(t)
        else Go(t, y.(pc := Fetch, page := x.page + 1))
  }

  /** A timeout or an error; a write in flight may be applied later. */
  function OnDie(s: State): State {
    if s.worker.Some? && s.worker.value.pc.Saves() then
      var x := s.worker.value;
      Stopped(s.(late := s.late + {Write(x.version, x.cursor, x.pc.value)}))
    else Stopped(s)
  }

  function OnLateWrite(s: State, d: Write): State {
    if d in s.late && d.version == RowVersion(s) then Store(s.(late := s.late - {d}), d.value) else s
  }

  /** A page that passes the checks is the page the token leads to. */
  predicate Faithful(w: World, win: Window, r: Response) {
    var l := w.listing(win.startMs, win.endMs);
    && |l.pages| == |l.tokens| + 1
    && r.Page? && Position(l, win.pageToken) < |l.pages|
    && var p := Position(l, win.pageToken);
    && |r.items| == |l.pages[p]| && (forall i :: 0 <= i < |r.items| ==> r.items[i] == Some(l.pages[p][i]))
    && r.hasMore == (p + 1 < |l.pages|)
    && (r.hasMore ==> r.token == l.tokens[p])
  }

  predicate Trusted(w: World, x: Worker, r: Response) {
    HasWindow(x) && (PageOk(r, x.tokens) ==> Faithful(w, Current(x), r))
  }

  predicate Emits(s: State) {
    && s.worker.Some? && s.worker.value.pc.Emit? && s.worker.value.pc.response.Page?
    && s.worker.value.cursor.Some? && HasWindow(s.worker.value)
  }

  /** A receipt's transaction may be applied while the receipt is going on, or after it was given
      up or its process ended. */
  function Step(w: World, s: State, a: Action): State {
    match a
    case Begin => if s.worker.None? then Go(s, Worker(Read, 0, None, None, {}, 0)) else s
    case ReadCursor =>
      if s.worker.Some? && s.worker.value.pc.Read? then OnRead(w, s, s.worker.value) else s
    case FetchAnswer(r) =>
      if s.worker.Some? && s.worker.value.pc.Fetch? && Trusted(w, s.worker.value, r) then OnFetch(s, s.worker.value, r)
      else s
    case EmitNext(outcome) => if Emits(s) then OnEmit(s, s.worker.value, outcome) else s
    case SaveCursor =>
      if s.worker.Some? && s.worker.value.pc.Saves() then OnSave(w, s, s.worker.value) else s
    case Die => OnDie(s)
    case Crash => OnDie(s).(processing := {})
    case LateWrite(d) => OnLateWrite(s, d)
    case ReceiptBegins(e) => s.(processing := s.processing + {e.identity.messageId})
    case Receipt(e) => s.(record := Register(s.record, e))
    case ReceiptEnds(id) => s.(processing := s.processing - {id})
    case SetClock(now) => s.(now := now)
  }

  function Run(w: World, s: State, actions: seq<Action>): State
    decreases |actions|
  {
    if actions == [] then s else Run(w, Step(w, s, actions[0]), actions[1..])
  }

  function Initial(now: nat): State { State(now, None, None, {}, {}, Record(Inbound.Empty(), [], {}, {}), None) }

  // ---------- What the durable cursor means ----------

  /** An emission of it was answered without a receipt. */
  predicate PassedOver(t: Record, it: Item) { TopicOf(it.event) in t.inFlight || TopicOf(it.event) in t.refused }

  predicate Done(t: Record, it: Item) { it.skip || Inbound.Recorded(t.tables, it.event) || PassedOver(t, it) }

  lemma DoneForAll(t: Record, shown: Item, it: Item)
    requires Shows(shown, it)
    ensures Done(t, shown) <==> Done(t, it)
  {}

  /** Everything created since `origin` and visible before (or, when closed, by) `through`. */
  ghost predicate Covered(w: World, t: Record, origin: int, through: int, closed: bool) {
    forall it :: it in w.history && origin <= it.created && (it.visible < through || (closed && it.visible == through))
      ==> Done(t, it)
  }

  predicate PagesDone(t: Record, l: Listing, n: nat) {
    forall i, it :: 0 <= i < n && i < |l.pages| && it in l.pages[i] ==> Done(t, it)
  }

  /** The window leaves no gap after what is covered. */
  predicate StartFits(w: World, origin: int, start: int, through: int) {
    start <= 0 || start <= origin || start <= through - w.overlapMs
  }

  /** A cursor value tells the truth about what is done. */
  ghost predicate Sound(w: World, t: Record, origin: int, v: CursorValue) {
    if v.window.None? then Covered(w, t, origin, v.throughMs, true)
    else
      var win := v.window.value;
      var l := w.listing(win.startMs, win.endMs);
      && Covered(w, t, origin, v.throughMs, false)
      && StartFits(w, origin, win.startMs, v.throughMs)
      && |l.pages| == |l.tokens| + 1
      && Position(l, win.pageToken) < |l.pages|
      && PagesDone(t, l, Position(l, win.pageToken))
  }

  /** How one cursor value may replace another. */
  predicate Follows(w: World, basis: Option<CursorValue>, v: CursorValue) {
    if basis.None? then v.window.Some? && v.throughMs == v.window.value.startMs && v.window.value.pageToken == ""
    else
      var b := basis.value;
      if v.window.Some? then
        && v.throughMs == b.throughMs
        && (b.window.None? ==> v.window.value.pageToken == "")
        && (b.window.Some? ==>
          && v.window.value == b.window.value.(pageToken := v.window.value.pageToken)
          && IsToken(v.window.value.pageToken))
      else b.window.Some? ==> v.throughMs == b.window.value.endMs
  }

  ghost predicate WriteFits(w: World, s: State, version: nat, basis: Option<CursorValue>, v: CursorValue) {
    && version <= RowVersion(s)
    && (version == RowVersion(s) ==> basis == RowValue(s))
    && (version == 0 <==> basis.None?)
    && Follows(w, basis, v)
    && (version == 0 ==> v.window.Some? && Sound(w, s.record, v.window.value.startMs, v))
    && (version > 0 ==> s.origin.Some? && Sound(w, s.record, s.origin.value, v))
  }

  /** The page being emitted: what is not in `todo` is done. */
  ghost predicate EmitFits(w: World, s: State, x: Worker)
    requires x.pc.Emit?
  {
    && x.cursor.Some? && x.opening.None? && HasWindow(x)
    && Faithful(w, Current(x), x.pc.response)
    && var l := w.listing(Current(x).startMs, Current(x).endMs);
    && (forall it :: it in l.pages[Position(l, Current(x).pageToken)] ==> it in x.pc.todo || Done(s.record, it))
  }

  ghost predicate WorkerFits(w: World, s: State, x: Worker) {
    && x.version <= RowVersion(s)
    && (x.pc.Read? || ((x.version == 0 <==> x.cursor.None?) && (x.version == RowVersion(s) ==> x.cursor == RowValue(s))))
    && (x.cursor.Some? ==> s.origin.Some? && Sound(w, s.record, s.origin.value, x.cursor.value))
    && (x.opening.Some? ==>
      && x.cursor.Some? && x.cursor.value.window.None? && x.opening.value.window.Some?
      && Follows(w, x.cursor, x.opening.value) && Sound(w, s.record, s.origin.value, x.opening.value))
    && (x.pc.Read? ==> x.opening.None?)
    && (x.pc.Fetch? ==> HasWindow(x) && x.cursor.Some?)
    && (x.pc.Saves() ==> WriteFits(w, s, x.version, x.cursor, x.pc.value))
    && (x.pc.SaveFirst? ==> x.version == 0)
    && (x.pc.SaveOpening? ==> x.opening == Some(x.pc.value) && Trusted(w, x, x.pc.response))
    && (x.pc.Emit? ==> EmitFits(w, s, x))
  }

  ghost predicate Inv(w: World, s: State) {
    && Inbound.Valid(s.record.tables)
    && (s.row.Some? <==> s.origin.Some?)
    && (s.row.Some? ==> s.row.value.version > 0 && Sound(w, s.record, s.origin.value, s.row.value.value))
    && (forall d :: d in s.late ==> WriteFits(w, s, d.version, d.basis, d.value))
    && (s.worker.Some? ==> WorkerFits(w, s, s.worker.value))
  }

  // ---------- Every step keeps it ----------

  ghost predicate Grows(t: Record, u: Record) {
    && (forall e :: Inbound.Recorded(t.tables, e) ==> Inbound.Recorded(u.tables, e))
    && t.inFlight <= u.inFlight && t.refused <= u.refused
  }

  lemma RegisterGrows(t: Record, e: Inbound.Event)
    requires Inbound.Valid(t.tables)
    ensures Grows(t, Register(t, e)) && Inbound.Valid(Register(t, e).tables)
  {
    Inbound.AcceptKeepsValid(t.tables, e);
    forall f | Inbound.Recorded(t.tables, f)
      ensures Inbound.Recorded(Register(t, e).tables, f)
    {
      Inbound.AcceptGrows(t.tables, e, f);
    }
  }

  lemma SoundGrows(w: World, t: Record, u: Record, origin: int, v: CursorValue)
    requires Grows(t, u) && Sound(w, t, origin, v)
    ensures Sound(w, u, origin, v)
  {
    assert forall it :: Done(t, it) ==> Done(u, it);
    if v.window.Some? {
      var l := w.listing(v.window.value.startMs, v.window.value.endMs);
      PagesGrow(t, u, l, Position(l, v.window.value.pageToken));
    }
  }

  lemma PagesGrow(t: Record, u: Record, l: Listing, n: nat)
    requires Grows(t, u) && PagesDone(t, l, n)
    ensures PagesDone(u, l, n)
  {
    forall i, it | 0 <= i < n && i < |l.pages| && it in l.pages[i]
      ensures Done(u, it)
    {
      assert Done(t, it);
    }
  }

  lemma WriteGrows(w: World, s: State, u: Record, version: nat, basis: Option<CursorValue>, v: CursorValue)
    requires Grows(s.record, u) && WriteFits(w, s, version, basis, v)
    ensures WriteFits(w, s.(record := u), version, basis, v)
  {
    SoundGrows(w, s.record, u, if version == 0 then v.window.value.startMs else s.origin.value, v);
  }

  lemma WorkerGrows(w: World, s: State, u: Record, x: Worker)
    requires Grows(s.record, u) && WorkerFits(w, s, x)
    ensures WorkerFits(w, s.(record := u), x)
  {
    if x.cursor.Some? { SoundGrows(w, s.record, u, s.origin.value, x.cursor.value); }
    if x.opening.Some? { SoundGrows(w, s.record, u, s.origin.value, x.opening.value); }
    if x.pc.Saves() { WriteGrows(w, s, u, x.version, x.cursor, x.pc.value); }
  }

  lemma RecordGrows(w: World, s: State, u: Record)
    requires Inv(w, s) && Grows(s.record, u) && Inbound.Valid(u.tables)
    ensures Inv(w, s.(record := u))
  {
    if s.row.Some? { SoundGrows(w, s.record, u, s.origin.value, s.row.value.value); }
    forall d | d in s.late
      ensures WriteFits(w, s.(record := u), d.version, d.basis, d.value)
    {
      WriteGrows(w, s, u, d.version, d.basis, d.value);
    }
    if s.worker.Some? { WorkerGrows(w, s, u, s.worker.value); }
  }

  /** A matching compare-and-set leaves every other pending write and the running worker stale. */
  lemma StoreKeepsInv(w: World, s: State, basis: Option<CursorValue>, v: CursorValue)
    requires Inv(w, s) && WriteFits(w, s, RowVersion(s), basis, v)
    ensures Inv(w, Store(s, v))
  {
    var t := Store(s, v);
    forall d | d in t.late
      ensures WriteFits(w, t, d.version, d.basis, d.value)
    {
      assert WriteFits(w, s, d.version, d.basis, d.value);
    }
  }

  /** A window's last page is done: everything visible by its end is covered. */
  lemma CloseIsSound(w: World, t: Record, origin: int, v: CursorValue)
    requires Stable(w) && v.window.Some? && Sound(w, t, origin, v)
    requires var win := v.window.value; PagesDone(t, w.listing(win.startMs, win.endMs), |w.listing(win.startMs, win.endMs).pages|)
    ensures Sound(w, t, origin, Closed(v.window.value))
  {
    var win := v.window.value;
    var l := w.listing(win.startMs, win.endMs);
    forall it | it in w.history && origin <= it.created && it.visible <= win.endMs
      ensures Done(t, it)
    {
      if it.visible >= v.throughMs {
        assert win.startMs <= it.created <= win.endMs;
        assert Listed(l, it);
        var i, shown :| ShowsAt(l, i, shown, it);
        DoneForAll(t, shown, it);
      }
    }
  }

  /** A new window starts where the covered past ends, less the overlap. */
  lemma OpenIsSound(w: World, t: Record, origin: int, v: CursorValue, now: nat)
    requires Stable(w) && v.window.None? && Sound(w, t, origin, v) && Opened(w, Some(v), now).Some?
    ensures Sound(w, t, origin, Opened(w, Some(v), now).value)
    ensures Follows(w, Some(v), Opened(w, Some(v), now).value)
  {
    var win := Opened(w, Some(v), now).value.window.value;
    assert WellListed(w.listing(win.startMs, win.endMs));
    assert StartFits(w, origin, win.startMs, v.throughMs);
  }

  lemma FirstIsSound(w: World, t: Record, now: nat)
    requires Stable(w) && Opened(w, None, now).Some?
    ensures var v := Opened(w, None, now).value;
      Follows(w, None, v) && Sound(w, t, v.window.value.startMs, v)
  {
    var win := Opened(w, None, now).value.window.value;
    assert WellListed(w.listing(win.startMs, win.endMs));
  }

  /** Only the running worker changes. */
  lemma NewWorker(w: World, s: State, x: Worker)
    requires Inv(w, s) && WorkerFits(w, s, x)
    ensures Inv(w, Go(s, x))
  {}

  lemma ReadKeepsInv(w: World, s: State, x: Worker)
    requires Stable(w) && Inv(w, s) && s.worker == Some(x) && x.pc.Read?
    ensures Inv(w, OnRead(w, s, x))
  {
    var v := RowValue(s);
    if v.Some? && v.value.window.None? && Opened(w, v, s.now).Some? {
      OpenIsSound(w, s.record, s.origin.value, v.value, s.now);
    }
    if v.None? && Opened(w, v, s.now).Some? { FirstIsSound(w, s.record, s.now); }
  }

  lemma CheckKeepsInv(w: World, s: State, x: Worker, r: Response)
    requires Stable(w) && Inv(w, Go(s, x.(pc := Fetch))) && x.opening.None? && Trusted(w, x, r)
    ensures Inv(w, Check(s, x, r))
  {
    if PageOk(r, x.tokens) {
      assert HasWindow(x.(pc := Fetch));
      var y := x.(pc := Emit(Unwrap(r.items), r));
      var l := w.listing(Current(x).startMs, Current(x).endMs);
      var p := l.pages[Position(l, Current(x).pageToken)];
      assert y.pc.todo == p;
      assert WorkerFits(w, s, x.(pc := Fetch));
      assert EmitFits(w, s, y);
    }
  }

  /** An empty last page closes the window without opening it. */
  lemma IdlePageIsSound(w: World, s: State, x: Worker, r: Response)
    requires Stable(w) && Inv(w, s) && s.worker == Some(x) && x.pc.Fetch? && x.opening.Some?
    requires Trusted(w, x, r) && r.Page? && r.items == [] && !r.hasMore
    ensures Inv(w, Go(s, x.(pc := SaveIdle(Closed(Current(x))))))
  {
    var v := x.opening.value;
    var l := w.listing(v.window.value.startMs, v.window.value.endMs);
    assert Faithful(w, Current(x), r);
    assert PagesDone(s.record, l, |l.pages|);
    CloseIsSound(w, s.record, s.origin.value, v);
    NewWorker(w, s, x.(pc := SaveIdle(Closed(v.window.value))));
  }

  lemma FetchKeepsInv(w: World, s: State, x: Worker, r: Response)
    requires Stable(w) && Inv(w, s) && s.worker == Some(x) && x.pc.Fetch? && Trusted(w, x, r)
    ensures Inv(w, OnFetch(s, x, r))
  {
    if x.opening.None? {
      CheckKeepsInv(w, s, x, r);
    } else if r.Page? && r.items == [] && !r.hasMore {
      IdlePageIsSound(w, s, x, r);
    } else {
      NewWorker(w, s, x.(pc := SaveOpening(x.opening.value, r)));
    }
  }

  /** A page whose items are all done may be checkpointed. */
  lemma PageFinished(w: World, s: State, x: Worker, outcome: Outcome)
    requires Stable(w) && Inv(w, s) && s.worker == Some(x) && x.pc.Emit? && x.pc.todo == []
    ensures Inv(w, OnEmit(s, x, outcome))
  {
    var win := Current(x);
    var l := w.listing(win.startMs, win.endMs);
    var p := Position(l, win.pageToken);
    assert PagesDone(s.record, l, p + 1);
    if !x.pc.response.hasMore {
      CloseIsSound(w, s.record, s.origin.value, x.cursor.value);
    } else {
      assert WellListed(l);
      PositionOfToken(l, p);
      assert IsToken(l.tokens[p]);
      var v := x.cursor.value.(window := Some(win.(pageToken := l.tokens[p])));
      assert Sound(w, s.record, s.origin.value, v);
    }
  }

  /** Dropping a finished item from what is left of the page. */
  lemma ItemDone(w: World, s: State, x: Worker)
    requires WorkerFits(w, s, x) && x.pc.Emit? && x.pc.todo != [] && Done(s.record, x.pc.todo[0])
    ensures WorkerFits(w, s, x.(pc := x.pc.(todo := x.pc.todo[1..])))
  {
    var y := x.(pc := x.pc.(todo := x.pc.todo[1..]));
    assert forall u :: u in x.pc.todo ==> u == x.pc.todo[0] || u in y.pc.todo;
    assert EmitFits(w, s, x);
    assert EmitFits(w, s, y);
  }

  lemma ItemPassed(w: World, s: State, x: Worker, u: Record)
    requires Inv(w, s) && s.worker == Some(x) && x.pc.Emit? && x.pc.todo != []
    requires Grows(s.record, u) && Inbound.Valid(u.tables) && Done(u, x.pc.todo[0])
    ensures Inv(w, Go(s.(record := u), x.(pc := x.pc.(todo := x.pc.todo[1..]))))
  {
    RecordGrows(w, s, u);
    ItemDone(w, s.(record := u), x);
    NewWorker(w, s.(record := u), x.(pc := x.pc.(todo := x.pc.todo[1..])));
  }

  lemma ItemEmitted(w: World, s: State, x: Worker, outcome: Outcome)
    requires Stable(w) && Inv(w, s) && s.worker == Some(x) && x.pc.Emit? && x.pc.todo != []
    ensures Inv(w, OnEmit(s, x, outcome))
  {
    var it := x.pc.todo[0];
    if it.skip {
      ItemPassed(w, s, x, s.record);
    } else if MessageId(it) in s.processing {
      ItemPassed(w, s, x, s.record.(inFlight := s.record.inFlight + {TopicOf(it.event)}));
    } else if outcome.Refused? {
      ItemPassed(w, s, x, s.record.(refused := s.record.refused + {TopicOf(it.event)}));
    } else if outcome.Registered? && Inbound.Answer(s.record.tables, it.event) != Inbound.Conflict {
      RegisterGrows(s.record, it.event);
      Inbound.AcceptGrows(s.record.tables, it.event, it.event);
      ItemPassed(w, s, x, Register(s.record, it.event));
    }
  }

  /** What the writer knows once its compare-and-set was answered. */
  lemma SavedWorker(w: World, s: State, x: Worker)
    requires Inv(w, s) && s.worker == Some(x) && x.pc.Saves() && x.version == RowVersion(s)
    ensures var t := Store(s, x.pc.value);
      && Inv(w, t.(worker := None))
      && (x.pc.value.window.Some? ==>
        WorkerFits(w, t, x.(version := x.version + 1, cursor := Some(x.pc.value), opening := None, pc := Fetch)))
  {
    StoreKeepsInv(w, s, x.cursor, x.pc.value);
  }

  lemma OpeningSaved(w: World, t: State, y: Worker, r: Response)
    requires Stable(w) && Inv(w, t) && WorkerFits(w, t, y.(pc := Fetch)) && y.opening.None? && Trusted(w, y, r)
    ensures Inv(w, Check(t, y, r))
  {
    NewWorker(w, t, y.(pc := Fetch));
    CheckKeepsInv(w, t, y, r);
  }

  lemma SaveOpeningKeepsInv(w: World, s: State, x: Worker)
    requires Stable(w) && Inv(w, s) && s.worker == Some(x) && x.pc.SaveOpening? && x.version == RowVersion(s)
    ensures Inv(w, OnSave(w, s, x))
  {
    SavedWorker(w, s, x);
    var t := Store(s, x.pc.value).(worker := None);
    var y := x.(version := x.version + 1, cursor := Some(x.pc.value), opening := None);
    assert Current(y) == Current(x);
    OpeningSaved(w, t, y, x.pc.response);
    assert OnSave(w, s, x) == Check(t, y, x.pc.response);
  }

  lemma SaveFirstKeepsInv(w: World, s: State, x: Worker)
    requires Stable(w) && Inv(w, s) && s.worker == Some(x) && x.pc.SaveFirst? && x.version == RowVersion(s)
    ensures Inv(w, OnSave(w, s, x))
  {
    SavedWorker(w, s, x);
    var y := x.(version := x.version + 1, cursor := Some(x.pc.value), opening := None, pc := Fetch);
    NewWorker(w, Store(s, x.pc.value).(worker := None), y);
    assert OnSave(w, s, x) == Go(Store(s, x.pc.value).(worker := None), y);
  }

  lemma SaveIdleKeepsInv(w: World, s: State, x: Worker)
    requires Stable(w) && Inv(w, s) && s.worker == Some(x) && x.pc.SaveIdle? && x.version == RowVersion(s)
    ensures Inv(w, OnSave(w, s, x))
  {
    SavedWorker(w, s, x);
  }

  lemma SavePageKeepsInv(w: World, s: State, x: Worker)
    requires Stable(w) && Inv(w, s) && s.worker == Some(x) && x.pc.SavePage? && x.version == RowVersion(s)
    ensures Inv(w, OnSave(w, s, x))
  {
    SavedWorker(w, s, x);
    if x.pc.value.window.Some? {
      var y := x.(version := x.version + 1, cursor := Some(x.pc.value), opening := None, pc := Fetch);
      NewWorker(w, Store(s, x.pc.value).(worker := None), y.(page := x.page + 1));
    }
  }

  lemma SaveKeepsInv(w: World, s: State, x: Worker)
    requires Stable(w) && Inv(w, s) && s.worker == Some(x) && x.pc.Saves()
    ensures Inv(w, OnSave(w, s, x))
  {
    if x.version == RowVersion(s) {
      match x.pc
      case SaveFirst(_) => SaveFirstKeepsInv(w, s, x);
      case SaveIdle(_) => SaveIdleKeepsInv(w, s, x);
      case SaveOpening(_, _) => SaveOpeningKeepsInv(w, s, x);
      case SavePage(_) => SavePageKeepsInv(w, s, x);
    }
  }

  lemma LateKeepsInv(w: World, s: State, d: Write)
    requires Inv(w, s)
    ensures Inv(w, OnLateWrite(s, d))
  {
    if d in s.late && d.version == RowVersion(s) {
      var t := s.(late := s.late - {d});
      assert Inv(w, t);
      assert WriteFits(w, s, d.version, d.basis, d.value);
      StoreKeepsInv(w, t, d.basis, d.value);
    }
  }

  lemma DieKeepsInv(w: World, s: State)
    requires Inv(w, s)
    ensures Inv(w, OnDie(s))
  {
    if s.worker.Some? { assert WorkerFits(w, s, s.worker.value); }
  }

  lemma WorkerStepKeepsInv(w: World, s: State, a: Action, x: Worker)
    requires Stable(w) && Inv(w, s) && s.worker == Some(x)
    requires a.ReadCursor? || a.FetchAnswer? || a.EmitNext? || a.SaveCursor?
    ensures Inv(w, Step(w, s, a))
  {
    match a
    case ReadCursor => if x.pc.Read? { ReadKeepsInv(w, s, x); }
    case FetchAnswer(r) => if x.pc.Fetch? && Trusted(w, x, r) { FetchKeepsInv(w, s, x, r); }
    case EmitNext(outcome) =>
      if x.pc.Emit? {
        if x.pc.todo == [] { PageFinished(w, s, x, outcome); } else { ItemEmitted(w, s, x, outcome); }
      }
    case SaveCursor => if x.pc.Saves() { SaveKeepsInv(w, s, x); }
  }

  lemma OtherStepKeepsInv(w: World, s: State, a: Action)
    requires Stable(w) && Inv(w, s)
    requires a.Die? || a.Crash? || a.LateWrite? || a.Receipt? || a.Begin?
    ensures Inv(w, Step(w, s, a))
  {
    if a.LateWrite? {
      LateKeepsInv(w, s, a.write);
    } else if a.Receipt? {
      RegisterGrows(s.record, a.event);
      RecordGrows(w, s, Register(s.record, a.event));
    } else if a.Begin? {
      NewWorker(w, s, Worker(Read, 0, None, None, {}, 0));
    } else {
      DieKeepsInv(w, s);
      OnlyProcessing(w, OnDie(s), {});
    }
  }

  /** The invariant says nothing of the clock and of what is being received. */
  lemma OnlyProcessing(w: World, s: State, processing: set<string>)
    requires Inv(w, s)
    ensures Inv(w, s.(processing := processing))
  {}

  lemma OnlyClock(w: World, s: State, now: nat)
    requires Inv(w, s)
    ensures Inv(w, s.(now := now))
  {}

  lemma StepKeepsInv(w: World, s: State, a: Action)
    requires Stable(w) && Inv(w, s)
    ensures Inv(w, Step(w, s, a))
  {
    match a {
      case ReceiptBegins(e) => OnlyProcessing(w, s, s.processing + {e.identity.messageId});
      case ReceiptEnds(id) => OnlyProcessing(w, s, s.processing - {id});
      case SetClock(now) => OnlyClock(w, s, now);
      case Begin => OtherStepKeepsInv(w, s, a);
      case Die => OtherStepKeepsInv(w, s, a);
      case Crash => OtherStepKeepsInv(w, s, a);
      case LateWrite(_) => OtherStepKeepsInv(w, s, a);
      case Receipt(_) => OtherStepKeepsInv(w, s, a);
      case _ => if s.worker.Some? { WorkerStepKeepsInv(w, s, a, s.worker.value); }
    }
  }

  lemma {:induction false} RunKeepsInv(w: World, s: State, actions: seq<Action>)
    requires Stable(w) && Inv(w, s)
    ensures Inv(w, Run(w, s, actions))
    decreases |actions|
  {
    if actions != [] {
      StepKeepsInv(w, s, actions[0]);
      RunKeepsInv(w, Step(w, s, actions[0]), actions[1..]);
    }
  }

  // ---------- What holds over every run ----------

  predicate Logged(log: seq<Inbound.Event>, e: Inbound.Event) {
    exists i :: 0 <= i < |log| && Inbound.Registers(log[i], e)
  }

  /** The inbox is what its receipts made of it, and holds what they registered. */
  ghost predicate Kept(r: Record) {
    && r.tables == Inbound.AcceptAll(Inbound.Empty(), r.log)
    && (forall e :: Inbound.Recorded(r.tables, e) <==> Logged(r.log, e))
  }

  lemma RegisterKeeps(r: Record, e: Inbound.Event)
    requires Kept(r)
    ensures Kept(Register(r, e))
  {
    if Inbound.Answer(r.tables, e) != Inbound.Conflict {
      var u := Register(r, e);
      Inbound.Append(Inbound.Empty(), r.log, [e]);
      assert Inbound.AcceptAll(r.tables, [e]) == Inbound.AcceptAll(Inbound.Accept(r.tables, e), []);
      forall f
        ensures Inbound.Recorded(u.tables, f) <==> Logged(u.log, f)
      {
        Inbound.AcceptRecordsExactly(r.tables, e, f);
        assert forall i :: 0 <= i < |r.log| ==> u.log[i] == r.log[i];
        assert u.log[|r.log|] == e;
      }
    }
  }

  /** Only a receipt changes the inbox, be it catch-up's own or another. */
  lemma StepKeepsRecord(w: World, s: State, a: Action)
    requires Kept(s.record)
    ensures Kept(Step(w, s, a).record)
  {
    if a.Receipt? {
      RegisterKeeps(s.record, a.event);
    } else if a.EmitNext? && Emits(s) && s.worker.value.pc.todo != [] {
      RegisterKeeps(s.record, s.worker.value.pc.todo[0].event);
    }
  }

  lemma {:induction false} RunKeepsRecord(w: World, s: State, actions: seq<Action>)
    requires Kept(s.record)
    ensures Kept(Run(w, s, actions).record)
    decreases |actions|
  {
    if actions != [] {
      StepKeepsRecord(w, s, actions[0]);
      RunKeepsRecord(w, Step(w, s, actions[0]), actions[1..]);
    }
  }

  /** What the durable cursor vouches for: everything created since the first window began and
      visible by `throughMs`, or before it while a window is open. */
  predicate CoveredBy(s: State, it: Item) {
    && s.row.Some? && s.origin.Some?
    && s.origin.value <= it.created && it.visible <= s.row.value.value.throughMs
    && (s.row.value.value.window.None? || it.visible < s.row.value.value.throughMs)
  }

  /** Which messages are lost. A message the durable cursor covers is missing from the inbox
      exactly when catch-up passed it over, being received elsewhere or refused at that time, and no
      receipt of it has been applied; the bot's own aside. The cursor covers everything since the
      first window began, however runs, crashes, late writes and other receipts interleave. */
  lemma LostExactlyWhenPassedOver(w: World, now: nat, actions: seq<Action>, it: Item)
    requires Stable(w) && it in w.history && !it.skip
    requires CoveredBy(Run(w, Initial(now), actions), it)
    ensures var r := Run(w, Initial(now), actions).record;
      !Inbound.Recorded(r.tables, it.event) <==> PassedOver(r, it) && !Logged(r.log, it.event)
  {
    assert Inv(w, Initial(now)) && Kept(Initial(now).record);
    RunKeepsInv(w, Initial(now), actions);
    RunKeepsRecord(w, Initial(now), actions);
  }

  /** No message is lost that is not passed over: whenever the durable cursor is closed, every
      message it covers is done; while a window is open, so is every page before the one its
      token leads to. */
  lemma NothingElseIsLost(w: World, now: nat, actions: seq<Action>, it: Item)
    requires Stable(w) && it in w.history
    requires Run(w, Initial(now), actions).row.Some?
    ensures var s := Run(w, Initial(now), actions);
      var v := s.row.value.value;
      && s.origin.Some?
      && (CoveredBy(s, it) ==> it.skip || Inbound.Recorded(s.record.tables, it.event) || PassedOver(s.record, it))
      && (v.window.Some? ==>
        var l := w.listing(v.window.value.startMs, v.window.value.endMs);
        && |l.pages| == |l.tokens| + 1
        && Position(l, v.window.value.pageToken) < |l.pages|
        && PagesDone(s.record, l, Position(l, v.window.value.pageToken)))
  {
    assert Inv(w, Initial(now));
    RunKeepsInv(w, Initial(now), actions);
  }

  /** What passes a message over: an emission of it while the message is being received, or a
      refusal. Nothing else does. */
  lemma PassedOverByItsEmission(w: World, s: State, a: Action, it: Item)
    requires !PassedOver(s.record, it)
    ensures PassedOver(Step(w, s, a).record, it) <==>
      && a.EmitNext? && Emits(s) && s.worker.value.pc.todo != []
      && var shown := s.worker.value.pc.todo[0];
      && TopicOf(shown.event) == TopicOf(it.event) && !shown.skip
      && (MessageId(shown) in s.processing || a.outcome.Refused?)
  {}

  /** The row changes only when a compare-and-set matches, now or late. */
  lemma RowChanges(w: World, s: State, a: Action)
    ensures var t := Step(w, s, a);
      || t.row == s.row
      || (a.SaveCursor? && s.worker.Some? && s.worker.value.pc.Saves() && s.worker.value.version == RowVersion(s)
        && t.row == Store(s, s.worker.value.pc.value).row)
      || (a.LateWrite? && a.write in s.late && a.write.version == RowVersion(s) && t.row == Store(s, a.write.value).row)
  {}

  /** The cursor row only ever moves by one lawful step: first window, open, next page, close.
      An open window keeps its bounds until it closes at its own end, however late a write. */
  lemma CursorMovesLawfully(w: World, now: nat, actions: seq<Action>, a: Action)
    requires Stable(w)
    ensures var s := Run(w, Initial(now), actions);
      var t := Step(w, s, a);
      t.row != s.row ==>
        && t.row.Some? && RowVersion(t) == RowVersion(s) + 1
        && Follows(w, RowValue(s), t.row.value.value)
  {
    var s := Run(w, Initial(now), actions);
    assert Inv(w, Initial(now));
    RunKeepsInv(w, Initial(now), actions);
    RowChanges(w, s, a);
    if a.LateWrite? && a.write in s.late {
      assert WriteFits(w, s, a.write.version, a.write.basis, a.write.value);
    } else if a.SaveCursor? && s.worker.Some? {
      assert WorkerFits(w, s, s.worker.value);
    }
  }

  /** Replay is harmless: after every run of catch-up, replays and live receipts the inbox is the
      one its receipts made, and each message in it owns exactly one job per hook of the event that
      was its first. */
  lemma ReplayIsHarmless(w: World, now: nat, actions: seq<Action>, m: Inbound.Message) returns (i: nat)
    requires m in Run(w, Initial(now), actions).record.tables.receipts
    ensures var r := Run(w, Initial(now), actions).record;
      && r.tables == Inbound.AcceptAll(Inbound.Empty(), r.log) && Inbound.Valid(r.tables)
      && Inbound.FirstOf(Inbound.Empty(), r.log, i, m)
      && Inbound.JobsFor(r.tables, m) == Inbound.JobsOf(r.log[i], r.tables.receipts[m])
  {
    RunKeepsRecord(w, Initial(now), actions);
    i := Inbound.EveryReceiptOwnsItsJobs(Inbound.Empty(), Run(w, Initial(now), actions).record.log, m);
  }

  // ---------- Time ----------

  /** Where the window after a cursor at `throughMs` starts. */
  function NextStart(w: World, throughMs: int): int { FloorSecond(Max(0, throughMs - w.overlapMs)) }

  /** No value is ahead of the clock, and no window starts before the overlap. */
  predicate Timely(w: World, v: CursorValue, now: nat) {
    && v.throughMs <= FloorSecond(now)
    && (v.window.Some? ==>
      && v.throughMs <= v.window.value.endMs <= FloorSecond(now)
      && NextStart(w, v.throughMs) <= v.window.value.startMs)
  }

  predicate NotBefore(basis: Option<CursorValue>, v: CursorValue) {
    basis.Some? ==> basis.value.throughMs <= v.throughMs
  }

  predicate WorkerTimely(w: World, x: Worker, now: nat) {
    && (x.cursor.Some? ==> Timely(w, x.cursor.value, now))
    && (x.opening.Some? ==> Timely(w, x.opening.value, now))
    && (x.pc.Saves() ==> Timely(w, x.pc.value, now) && NotBefore(x.cursor, x.pc.value))
  }

  predicate AllTimely(w: World, s: State) {
    && (s.row.Some? ==> Timely(w, s.row.value.value, s.now))
    && (forall d :: d in s.late ==> Timely(w, d.value, s.now) && NotBefore(d.basis, d.value))
    && (s.worker.Some? ==> WorkerTimely(w, s.worker.value, s.now))
  }

  /** The clock is not set back. */
  predicate ClockForward(w: World, s: State, actions: seq<Action>)
    decreases |actions|
  {
    actions == [] ||
      ((actions[0].SetClock? ==> s.now <= actions[0].now) && ClockForward(w, Step(w, s, actions[0]), actions[1..]))
  }

  lemma FloorIsMonotone(a: nat, b: nat)
    requires a <= b
    ensures FloorSecond(a) <= FloorSecond(b) <= b
  {}

  lemma ReadIsTimely(w: World, s: State, x: Worker)
    requires AllTimely(w, s) && s.worker == Some(x) && x.pc.Read? && x.opening.None?
    ensures AllTimely(w, OnRead(w, s, x))
  {
    FloorIsMonotone(0, s.now);
  }

  lemma FetchIsTimely(w: World, s: State, x: Worker, r: Response)
    requires AllTimely(w, s) && s.worker == Some(x) && x.pc.Fetch? && HasWindow(x)
    requires x.opening.Some? ==> x.cursor.Some? && x.opening.value.throughMs == x.cursor.value.throughMs
    ensures AllTimely(w, OnFetch(s, x, r))
  {}

  lemma EmitIsTimely(w: World, s: State, x: Worker, outcome: Outcome)
    requires AllTimely(w, s) && s.worker == Some(x) && x.pc.Emit? && x.pc.response.Page? && HasWindow(x)
    requires x.cursor.Some? && x.opening.None?
    ensures AllTimely(w, OnEmit(s, x, outcome))
  {}

  lemma SaveIsTimely(w: World, s: State, x: Worker)
    requires AllTimely(w, s) && s.worker == Some(x) && x.pc.Saves()
    ensures AllTimely(w, OnSave(w, s, x))
  {
    assert AllTimely(w, Store(s, x.pc.value).(worker := None));
  }

  lemma WorkerStepIsTimely(w: World, s: State, a: Action, x: Worker)
    requires Stable(w) && Inv(w, s) && AllTimely(w, s) && s.worker == Some(x)
    requires a.ReadCursor? || a.FetchAnswer? || a.EmitNext? || a.SaveCursor?
    ensures AllTimely(w, Step(w, s, a))
  {
    assert WorkerFits(w, s, x);
    match a
    case ReadCursor => if x.pc.Read? { ReadIsTimely(w, s, x); }
    case FetchAnswer(r) => if x.pc.Fetch? && Trusted(w, x, r) { FetchIsTimely(w, s, x, r); }
    case EmitNext(outcome) => if x.pc.Emit? { EmitIsTimely(w, s, x, outcome); }
    case SaveCursor => if x.pc.Saves() { SaveIsTimely(w, s, x); }
  }

  lemma OtherStepIsTimely(w: World, s: State, a: Action)
    requires AllTimely(w, s)
    requires a.Begin? || a.Die? || a.Crash? || a.LateWrite?
    ensures AllTimely(w, Step(w, s, a))
  {}

  lemma ReceiptsAreTimely(w: World, s: State, a: Action)
    requires AllTimely(w, s)
    requires a.ReceiptBegins? || a.Receipt? || a.ReceiptEnds?
    ensures AllTimely(w, Step(w, s, a))
  {}

  lemma ClockIsTimely(w: World, s: State, now: nat)
    requires AllTimely(w, s) && s.now <= now
    ensures AllTimely(w, s.(now := now))
  {
    FloorIsMonotone(s.now, now);
  }

  lemma StepIsTimely(w: World, s: State, a: Action)
    requires Stable(w) && Inv(w, s) && AllTimely(w, s)
    requires a.SetClock? ==> s.now <= a.now
    ensures AllTimely(w, Step(w, s, a))
  {
    if a.SetClock? {
      ClockIsTimely(w, s, a.now);
    } else if a.Begin? || a.Die? || a.Crash? || a.LateWrite? {
      OtherStepIsTimely(w, s, a);
    } else if a.ReceiptBegins? || a.Receipt? || a.ReceiptEnds? {
      ReceiptsAreTimely(w, s, a);
    } else if s.worker.Some? {
      WorkerStepIsTimely(w, s, a, s.worker.value);
    }
  }

  lemma StepNeverDecreases(w: World, s: State, a: Action)
    requires Inv(w, s) && AllTimely(w, s) && s.row.Some?
    ensures var t := Step(w, s, a); t.row.Some? && s.row.value.value.throughMs <= t.row.value.value.throughMs
  {
    RowChanges(w, s, a);
    if s.worker.Some? { assert WorkerFits(w, s, s.worker.value); }
    if a.LateWrite? && a.write in s.late {
      assert WriteFits(w, s, a.write.version, a.write.basis, a.write.value);
    }
  }

  /** With a clock that is not set back, `throughMs` never decreases. */
  lemma {:induction false} ThroughNeverDecreases(w: World, s: State, actions: seq<Action>)
    requires Stable(w) && Inv(w, s) && AllTimely(w, s) && ClockForward(w, s, actions)
    ensures Inv(w, Run(w, s, actions)) && AllTimely(w, Run(w, s, actions))
    ensures s.row.Some? ==>
      var t := Run(w, s, actions); t.row.Some? && s.row.value.value.throughMs <= t.row.value.value.throughMs
    decreases |actions|
  {
    if actions != [] {
      StepKeepsInv(w, s, actions[0]);
      StepIsTimely(w, s, actions[0]);
      if s.row.Some? { StepNeverDecreases(w, s, actions[0]); }
      ThroughNeverDecreases(w, Step(w, s, actions[0]), actions[1..]);
    }
  }

  /** What is vouched for begins no later than it ends. */
  predicate OriginCovered(s: State) {
    s.row.Some? ==> s.origin.Some? && s.origin.value <= s.row.value.value.throughMs
  }

  lemma StoreKeepsOriginCovered(w: World, s: State, basis: Option<CursorValue>, v: CursorValue)
    requires OriginCovered(s) && (s.row.Some? <==> s.origin.Some?)
    requires basis == RowValue(s) && Follows(w, basis, v) && NotBefore(basis, v)
    ensures OriginCovered(Store(s, v))
  {}

  lemma StepKeepsOriginCovered(w: World, s: State, a: Action)
    requires Inv(w, s) && AllTimely(w, s) && OriginCovered(s)
    ensures OriginCovered(Step(w, s, a))
  {
    if a.LateWrite? {
      if a.write in s.late && a.write.version == RowVersion(s) {
        assert WriteFits(w, s, a.write.version, a.write.basis, a.write.value);
        StoreKeepsOriginCovered(w, s, a.write.basis, a.write.value);
      }
    } else if a.SaveCursor? && s.worker.Some? && s.worker.value.pc.Saves() {
      var x := s.worker.value;
      assert WorkerFits(w, s, x);
      if x.version == RowVersion(s) { StoreKeepsOriginCovered(w, s, x.cursor, x.pc.value); }
    }
  }

  lemma {:induction false} OriginIsCovered(w: World, s: State, actions: seq<Action>)
    requires Stable(w) && Inv(w, s) && AllTimely(w, s) && ClockForward(w, s, actions) && OriginCovered(s)
    ensures OriginCovered(Run(w, s, actions))
    decreases |actions|
  {
    if actions != [] {
      StepKeepsInv(w, s, actions[0]);
      StepIsTimely(w, s, actions[0]);
      StepKeepsOriginCovered(w, s, actions[0]);
      OriginIsCovered(w, Step(w, s, actions[0]), actions[1..]);
    }
  }

  // ---------- Behind the overlap ----------

  /** A page of a window holds what was created since the window's start. */
  ghost predicate PagesStart(w: World) {
    forall a, b, i, it :: 0 <= i < |w.listing(a, b).pages| && it in w.listing(a, b).pages[i] ==> a <= it.created
  }

  predicate NoneBefore(items: seq<Item>, bound: int) { forall i :: 0 <= i < |items| ==> bound <= items[i].created }

  /** The cursor is at `throughMs` or later for whoever reads or holds it. */
  predicate Behind(w: World, s: State, throughMs: int) {
    && s.row.Some? && throughMs <= s.row.value.value.throughMs
    && (s.worker.Some? && !s.worker.value.pc.Read? ==>
      && s.worker.value.cursor.Some? && throughMs <= s.worker.value.cursor.value.throughMs
      && (s.worker.value.pc.Emit? ==> NoneBefore(s.worker.value.pc.todo, NextStart(w, throughMs))))
  }

  lemma StartIsMonotone(w: World, a: int, b: int)
    requires a <= b
    ensures NextStart(w, a) <= NextStart(w, b)
  {
    FloorIsMonotone(Max(0, a - w.overlapMs), Max(0, b - w.overlapMs));
  }

  /** A page that is taken up holds nothing from before the overlap. */
  lemma CheckStaysBehind(w: World, s: State, x: Worker, r: Response, throughMs: int)
    requires PagesStart(w) && HasWindow(x) && Trusted(w, x, r)
    requires s.row.Some? && throughMs <= s.row.value.value.throughMs
    requires x.cursor.Some? && throughMs <= x.cursor.value.throughMs && NextStart(w, throughMs) <= Current(x).startMs
    requires s.worker.None? || s.worker == Some(x)
    ensures Behind(w, Check(s, x, r), throughMs)
  {
    if PageOk(r, x.tokens) {
      var l := w.listing(Current(x).startMs, Current(x).endMs);
      var page := l.pages[Position(l, Current(x).pageToken)];
      assert Unwrap(r.items) == page;
      forall i | 0 <= i < |page|
        ensures NextStart(w, throughMs) <= page[i].created
      {
        assert page[i] in page;
      }
    }
  }

  lemma FetchStaysBehind(w: World, s: State, x: Worker, r: Response, throughMs: int)
    requires PagesStart(w) && Inv(w, s) && AllTimely(w, s) && Behind(w, s, throughMs)
    requires s.worker == Some(x) && x.pc.Fetch? && Trusted(w, x, r)
    ensures Behind(w, OnFetch(s, x, r), throughMs)
  {
    assert WorkerFits(w, s, x);
    if x.opening.None? {
      StartIsMonotone(w, throughMs, x.cursor.value.throughMs);
      CheckStaysBehind(w, s, x, r, throughMs);
    }
  }

  lemma SaveStaysBehind(w: World, s: State, x: Worker, throughMs: int)
    requires PagesStart(w) && Inv(w, s) && AllTimely(w, s) && Behind(w, s, throughMs)
    requires s.worker == Some(x) && x.pc.Saves()
    ensures Behind(w, OnSave(w, s, x), throughMs)
  {
    assert WorkerFits(w, s, x);
    if x.version == RowVersion(s) && x.pc.SaveOpening? {
      var y := x.(version := x.version + 1, cursor := Some(x.pc.value), opening := None);
      assert Current(y) == Current(x);
      StartIsMonotone(w, throughMs, x.pc.value.throughMs);
      CheckStaysBehind(w, Store(s, x.pc.value).(worker := None), y, x.pc.response, throughMs);
    }
  }

  lemma EmitStaysBehind(w: World, s: State, x: Worker, outcome: Outcome, throughMs: int)
    requires Behind(w, s, throughMs) && s.worker == Some(x) && Emits(s)
    ensures Behind(w, OnEmit(s, x, outcome), throughMs)
  {
    if x.pc.todo != [] {
      assert forall i :: 0 <= i < |x.pc.todo| - 1 ==> x.pc.todo[1..][i] == x.pc.todo[i + 1];
    }
  }

  lemma StepStaysBehind(w: World, s: State, a: Action, throughMs: int)
    requires Stable(w) && PagesStart(w) && Inv(w, s) && AllTimely(w, s) && Behind(w, s, throughMs)
    ensures Behind(w, Step(w, s, a), throughMs)
  {
    StepNeverDecreases(w, s, a);
    if s.worker.Some? {
      var x := s.worker.value;
      if a.FetchAnswer? && x.pc.Fetch? && Trusted(w, x, a.response) {
        FetchStaysBehind(w, s, x, a.response, throughMs);
      } else if a.EmitNext? && Emits(s) {
        EmitStaysBehind(w, s, x, a.outcome, throughMs);
      } else if a.SaveCursor? && x.pc.Saves() {
        SaveStaysBehind(w, s, x, throughMs);
      }
    }
  }

  /** Some step emits a message created before `bound`. */
  predicate EmitsOlder(w: World, s: State, actions: seq<Action>, bound: int)
    decreases |actions|
  {
    actions != [] &&
      (|| (actions[0].EmitNext? && Emits(s) && s.worker.value.pc.todo != [] && s.worker.value.pc.todo[0].created < bound)
       || EmitsOlder(w, Step(w, s, actions[0]), actions[1..], bound))
  }

  /** What was passed over and fell behind the overlap is lost for good: once no run is under way
      and the cursor is at `throughMs`, no run ever reads a message again that was created before
      `throughMs - overlapMs`, as long as the clock is not set back. */
  lemma NeverReadAgain(w: World, now: nat, before: seq<Action>, after: seq<Action>)
    requires Stable(w) && PagesStart(w) && ClockForward(w, Initial(now), before)
    requires var s := Run(w, Initial(now), before); s.worker.None? && s.row.Some? && ClockForward(w, s, after)
    ensures var s := Run(w, Initial(now), before);
      !EmitsOlder(w, s, after, NextStart(w, s.row.value.value.throughMs))
  {
    var s := Run(w, Initial(now), before);
    assert Inv(w, Initial(now)) && AllTimely(w, Initial(now));
    ThroughNeverDecreases(w, Initial(now), before);
    StaysBehind(w, s, after, s.row.value.value.throughMs);
  }

  lemma {:induction false} StaysBehind(w: World, s: State, actions: seq<Action>, throughMs: int)
    requires Stable(w) && PagesStart(w) && Inv(w, s) && AllTimely(w, s) && ClockForward(w, s, actions)
    requires Behind(w, s, throughMs)
    ensures !EmitsOlder(w, s, actions, NextStart(w, throughMs))
    decreases |actions|
  {
    if actions != [] {
      StepKeepsInv(w, s, actions[0]);
      StepIsTimely(w, s, actions[0]);
      StepStaysBehind(w, s, actions[0], throughMs);
      StaysBehind(w, Step(w, s, actions[0]), actions[1..], throughMs);
    }
  }

  /** A clock that was set back: below the overlap the run is refused; within it the run goes
      on, and its window closes behind the cursor exactly when the second it reads is earlier.
      What is lost does not depend on it. */
  lemma ClockSetBack(w: World, v: CursorValue, now: nat)
    requires v.window.None? && v.throughMs >= 0
    ensures Opened(w, Some(v), now).None? <==> FloorSecond(now) < FloorSecond(v.throughMs - w.overlapMs)
    ensures Opened(w, Some(v), now).Some? ==>
      (Closed(Opened(w, Some(v), now).value.window.value).throughMs < v.throughMs <==> FloorSecond(now) < v.throughMs)
  {
    FloorIsMonotone(0, now);
  }
}
