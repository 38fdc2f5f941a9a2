/** How catch-up gets on when nothing disturbs a run (src/core/catchup.mjs): a window closes in as
    many runs as its pages need, exactly if no message in it meets a conflicting inbox row; one
    that does stalls its window for good. Two reachable runs show what is lost and what stalls. */
module CatchupProgress {
  import opened Prelude
  import opened Catchup
  import Inbound

  // ---------- What a window holds ----------

  function Ahead(l: Listing, p: nat): seq<Item>
    requires p <= |l.pages|
    decreases |l.pages| - p
  {
    if p == |l.pages| then [] else l.pages[p] + Ahead(l, p + 1)
  }

  lemma NothingAhead(l: Listing)
    ensures l.pages == [[]] ==> Ahead(l, 0) == []
  {
    if l.pages == [[]] { assert Ahead(l, 0) == [] + Ahead(l, 1); }
  }

  /** Neither left out by catch-up nor being received elsewhere. */
  predicate Reaches(processing: set<string>, it: Item) { !it.skip && MessageId(it) !in processing }

  predicate Meets(t: Inbound.Tables, processing: set<string>, it: Item) {
    Reaches(processing, it) && Inbound.Answer(t, it.event) == Inbound.Conflict
  }

  function After(t: Inbound.Tables, processing: set<string>, it: Item): Inbound.Tables {
    if Reaches(processing, it) then Inbound.Accept(t, it.event) else t
  }

  /** The inbox after emitting `items` in order. */
  function AfterAll(t: Inbound.Tables, processing: set<string>, items: seq<Item>): Inbound.Tables
    decreases |items|
  {
    if items == [] then t else AfterAll(After(t, processing, items[0]), processing, items[1..])
  }

  /** None of `items`, emitted in order, is answered with a conflict when it is reached. */
  predicate Smooth(t: Inbound.Tables, processing: set<string>, items: seq<Item>)
    decreases |items|
  {
    items == [] || (!Meets(t, processing, items[0]) && Smooth(After(t, processing, items[0]), processing, items[1..]))
  }

  lemma {:induction false} SmoothAppends(t: Inbound.Tables, processing: set<string>, a: seq<Item>, b: seq<Item>)
    ensures Smooth(t, processing, a + b)
      <==> Smooth(t, processing, a) && Smooth(AfterAll(t, processing, a), processing, b)
    ensures AfterAll(t, processing, a + b) == AfterAll(AfterAll(t, processing, a), processing, b)
    decreases |a|
  {
    if a == [] {
      assert a + b == b;
    } else {
      assert (a + b)[1..] == a[1..] + b;
      SmoothAppends(After(t, processing, a[0]), processing, a[1..], b);
    }
  }

  /** What emitting the rest of a window comes to. */
  datatype Course = Course(processing: set<string>, now: nat, end: Inbound.Tables)

  predicate OnCourse(s: State, items: seq<Item>, g: Course) {
    && s.processing == g.processing && s.now == g.now
    && Smooth(s.record.tables, g.processing, items) && AfterAll(s.record.tables, g.processing, items) == g.end
  }

  // ---------- Undisturbed runs make progress ----------

  function PageAt(l: Listing, p: nat): (r: Response)
    requires WellListed(l) && p < |l.pages|
  {
    Page(seq(|l.pages[p]|, i requires 0 <= i < |l.pages[p]| => Some(l.pages[p][i])), p + 1 < |l.pages|,
      if p + 1 < |l.pages| then l.tokens[p] else "")
  }

  /** The step a run takes next when nothing fails. */
  function Next(w: World, x: Worker): Action {
    match x.pc
    case Read => ReadCursor
    case Fetch =>
      if HasWindow(x) then
        var l := w.listing(Current(x).startMs, Current(x).endMs);
        if WellListed(l) && Position(l, Current(x).pageToken) < |l.pages| then
          FetchAnswer(PageAt(l, Position(l, Current(x).pageToken)))
        else Die
      else Die
    case Emit(_, _) => EmitNext(Registered)
    case _ => SaveCursor
  }

  function Drive(w: World, s: State, n: nat): State
    decreases n
  {
    if n == 0 || s.worker.None? then s else Drive(w, Step(w, s, Next(w, s.worker.value)), n - 1)
  }

  lemma DriveStops(w: World, s: State, n: nat)
    requires s.worker.None?
    ensures Drive(w, s, n) == s
  {}

  lemma {:induction false} DriveAdds(w: World, s: State, m: nat, n: nat)
    ensures Drive(w, Drive(w, s, m), n) == Drive(w, s, m + n)
    decreases m
  {
    if m == 0 {
    } else if s.worker.None? {
      DriveStops(w, s, m);
      DriveStops(w, s, n);
      DriveStops(w, s, m + n);
    } else {
      var t := Step(w, s, Next(w, s.worker.value));
      DriveAdds(w, t, m - 1, n);
      assert Drive(w, s, m) == Drive(w, t, m - 1);
      assert Drive(w, s, m + n) == Drive(w, t, m + n - 1);
    }
  }

  /** A run stands at page `p` of its window with `page` pages of its budget used. */
  predicate StandsAt(w: World, s: State, win: Window, p: nat, page: nat) {
    var l := w.listing(win.startMs, win.endMs);
    && s.worker.Some? && s.row.Some?
    && (var x := s.worker.value;
    && x.pc.Fetch? && x.opening.None? && x.page == page
    && x.version == s.row.value.version && x.cursor == Some(s.row.value.value)
    && s.row.value.value.window == Some(win)
    && WellListed(l) && p < |l.pages| && Position(l, win.pageToken) == p
    && (forall i :: p <= i < |l.tokens| ==> l.tokens[i] !in x.tokens))
  }

  predicate AtPage(w: World, s: State, win: Window, p: nat, page: nat, g: Course) {
    StandsAt(w, s, win, p, page) && OnCourse(s, Ahead(w.listing(win.startMs, win.endMs), p), g)
  }

  lemma {:induction false} EmitsAll(w: World, s: State, rest: seq<Item>, g: Course)
    requires Emits(s) && OnCourse(s, s.worker.value.pc.todo + rest, g)
    ensures var x := s.worker.value;
      var t := Drive(w, s, |x.pc.todo|);
      && t == s.(record := t.record, worker := Some(x.(pc := x.pc.(todo := []))))
      && OnCourse(t, rest, g)
    decreases |s.worker.value.pc.todo|
  {
    var x := s.worker.value;
    if x.pc.todo == [] {
      assert [] + rest == rest;
    } else {
      assert (x.pc.todo + rest)[1..] == x.pc.todo[1..] + rest;
      EmitsAll(w, Step(w, s, EmitNext(Registered)), rest, g);
    }
  }

  lemma PageIsTrusted(w: World, s: State, win: Window, p: nat, page: nat)
    requires StandsAt(w, s, win, p, page)
    ensures var x := s.worker.value;
      var r := PageAt(w.listing(win.startMs, win.endMs), p);
      && Next(w, x) == FetchAnswer(r) && Trusted(w, x, r) && PageOk(r, x.tokens)
      && Unwrap(r.items) == w.listing(win.startMs, win.endMs).pages[p]
  {
    var l := w.listing(win.startMs, win.endMs);
    var r := PageAt(l, p);
    assert |r.items| == |l.pages[p]| <= 50;
    assert Unwrap(r.items) == l.pages[p];
  }

  /** The state a run reaches after an undisturbed page. */
  predicate PageTaken(w: World, t: State, win: Window, p: nat, page: nat, g: Course) {
    var l := w.listing(win.startMs, win.endMs);
    && WellListed(l) && p < |l.pages| && t.row.Some? && OnCourse(t, Ahead(l, p + 1), g)
    && if p + 1 == |l.pages| then t.worker.None? && t.row.value.value == Closed(win)
       else if page + 1 >= w.maxPages then
         t.worker.None? && t.row.value.value.window == Some(win.(pageToken := l.tokens[p]))
       else AtPage(w, t, win.(pageToken := l.tokens[p]), p + 1, page + 1, g)
  }

  lemma TakePage(w: World, s: State, win: Window, p: nat, page: nat, g: Course) returns (n: nat)
    requires AtPage(w, s, win, p, page, g)
    ensures PageTaken(w, Drive(w, s, n), win, p, page, g)
  {
    var x := s.worker.value;
    var l := w.listing(win.startMs, win.endMs);
    var r := PageAt(l, p);
    PageIsTrusted(w, s, win, p, page);
    var s1 := Step(w, s, FetchAnswer(r));
    assert s1 == Go(s, x.(pc := Emit(l.pages[p], r)));
    assert Go(s1, s1.worker.value.(pc := Fetch)) == s;
    assert Drive(w, s, 1) == Drive(w, s1, 0) == s1;
    EmitPage(w, s1, win, p, page, g);
    n := 1 + (|l.pages[p]| + 2);
    DriveAdds(w, s, 1, |l.pages[p]| + 2);
  }

  /** A checked page is emitted and checkpointed. */
  lemma EmitPage(w: World, s: State, win: Window, p: nat, page: nat, g: Course)
    requires s.worker.Some? && AtPage(w, Go(s, s.worker.value.(pc := Fetch)), win, p, page, g)
    requires var l := w.listing(win.startMs, win.endMs); s.worker.value.pc == Emit(l.pages[p], PageAt(l, p))
    ensures PageTaken(w, Drive(w, s, |w.listing(win.startMs, win.endMs).pages[p]| + 2), win, p, page, g)
  {
    var k := |w.listing(win.startMs, win.endMs).pages[p]|;
    var t := PageEmitted(w, s, win, p, page, g);
    PageCheckpointed(w, t, win, p, page, PageAt(w.listing(win.startMs, win.endMs), p), g);
    DriveAdds(w, s, k, 2);
  }

  lemma PageEmitted(w: World, s: State, win: Window, p: nat, page: nat, g: Course) returns (t: State)
    requires s.worker.Some? && AtPage(w, Go(s, s.worker.value.(pc := Fetch)), win, p, page, g)
    requires var l := w.listing(win.startMs, win.endMs); s.worker.value.pc == Emit(l.pages[p], PageAt(l, p))
    ensures var l := w.listing(win.startMs, win.endMs);
      && t == Drive(w, s, |l.pages[p]|) && t.worker.Some? && t.worker.value.pc == Emit([], PageAt(l, p))
      && StandsAt(w, Go(t, t.worker.value.(pc := Fetch)), win, p, page) && OnCourse(t, Ahead(l, p + 1), g)
  {
    var l := w.listing(win.startMs, win.endMs);
    EmitsAll(w, s, Ahead(l, p + 1), g);
    t := Drive(w, s, |l.pages[p]|);
    assert Go(t, t.worker.value.(pc := Fetch)) == Go(s, s.worker.value.(pc := Fetch)).(record := t.record);
  }

  /** The last two steps of a page: deciding what to save, and saving it. */
  lemma PageCheckpointed(w: World, s: State, win: Window, p: nat, page: nat, r: Response, g: Course)
    requires s.worker.Some? && s.worker.value.pc == Emit([], r)
    requires StandsAt(w, Go(s, s.worker.value.(pc := Fetch)), win, p, page)
    requires r == PageAt(w.listing(win.startMs, win.endMs), p)
    requires OnCourse(s, Ahead(w.listing(win.startMs, win.endMs), p + 1), g)
    ensures PageTaken(w, Drive(w, s, 2), win, p, page, g)
  {
    var x := s.worker.value;
    var l := w.listing(win.startMs, win.endMs);
    var s1 := Step(w, s, EmitNext(Registered));
    var s2 := Step(w, s1, SaveCursor);
    assert Drive(w, s, 2) == Drive(w, s1, 1) == Drive(w, s2, 0);
    if p + 1 < |l.pages| {
      var next := win.(pageToken := l.tokens[p]);
      PositionOfToken(l, p);
      assert s1.worker.value.pc == SavePage(x.cursor.value.(window := Some(next)));
      assert s2.row.value.value.window == Some(next);
    }
  }

  /** How far a run gets: it closes the window, or uses up its budget. */
  predicate RunEnded(w: World, t: State, win: Window, p: nat, left: nat, g: Course) {
    var l := w.listing(win.startMs, win.endMs);
    && WellListed(l) && p < |l.pages| && 0 < left && t.worker.None? && t.row.Some?
    && (if |l.pages| - p <= left then t.row.value.value == Closed(win) && OnCourse(t, [], g)
        else t.row.value.value.window == Some(win.(pageToken := l.tokens[p + left - 1])) && OnCourse(t, Ahead(l, p + left), g))
  }

  lemma {:induction false} FinishRun(w: World, s: State, win: Window, p: nat, page: nat, g: Course) returns (n: nat)
    requires w.maxPages > 0 && page < w.maxPages && AtPage(w, s, win, p, page, g)
    ensures RunEnded(w, Drive(w, s, n), win, p, w.maxPages - page, g)
    decreases w.maxPages - page, 1
  {
    var k := TakePage(w, s, win, p, page, g);
    var m := AfterPage(w, Drive(w, s, k), win, p, page, g);
    n := Joined(w, s, k, m, win, p, w.maxPages - page, g);
  }

  lemma Joined(w: World, s: State, k: nat, m: nat, win: Window, p: nat, left: nat, g: Course) returns (n: nat)
    requires RunEnded(w, Drive(w, Drive(w, s, k), m), win, p, left, g)
    ensures RunEnded(w, Drive(w, s, n), win, p, left, g)
  {
    DriveAdds(w, s, k, m);
    n := k + m;
  }

  lemma {:induction false} AfterPage(w: World, t: State, win: Window, p: nat, page: nat, g: Course) returns (n: nat)
    requires w.maxPages > 0 && page < w.maxPages && PageTaken(w, t, win, p, page, g)
    ensures RunEnded(w, Drive(w, t, n), win, p, w.maxPages - page, g)
    decreases w.maxPages - page, 0
  {
    var l := w.listing(win.startMs, win.endMs);
    if p + 1 < |l.pages| && page + 1 < w.maxPages {
      n := FinishRun(w, t, win.(pageToken := l.tokens[p]), p + 1, page + 1, g);
    } else {
      n := 0;
    }
  }

  /** Between runs, with an open window at page `p`. */
  predicate Paused(w: World, s: State, win: Window, p: nat) {
    var l := w.listing(win.startMs, win.endMs);
    && s.worker.None? && s.row.Some? && s.row.value.value.window == Some(win)
    && WellListed(l) && p < |l.pages| && Position(l, win.pageToken) == p
  }

  /** Some number of undisturbed runs, each started when the one before has ended. */
  function Runs(w: World, s: State, lengths: seq<nat>): State
    decreases |lengths|
  {
    if lengths == [] then s else Runs(w, Drive(w, Step(w, s, Begin), lengths[0]), lengths[1..])
  }

  lemma ResumesAt(w: World, s: State, win: Window, p: nat, g: Course)
    requires Paused(w, s, win, p) && OnCourse(s, Ahead(w.listing(win.startMs, win.endMs), p), g)
    ensures var t := Step(w, Step(w, s, Begin), ReadCursor);
      AtPage(w, t, win, p, 0, g) && Drive(w, Step(w, s, Begin), 1) == t
  {
    var l := w.listing(win.startMs, win.endMs);
    var t := Step(w, Step(w, s, Begin), ReadCursor);
    assert Drive(w, Step(w, s, Begin), 1) == Drive(w, t, 0);
    forall i | p <= i < |l.tokens|
      ensures l.tokens[i] !in t.worker.value.tokens
    {
      PositionOfToken(l, i);
    }
  }

  lemma OneRun(w: World, s: State, win: Window, p: nat, g: Course) returns (n: nat)
    requires w.maxPages > 0 && Paused(w, s, win, p) && OnCourse(s, Ahead(w.listing(win.startMs, win.endMs), p), g)
    ensures RunEnded(w, Drive(w, Step(w, s, Begin), n), win, p, w.maxPages, g)
  {
    var s1 := Step(w, s, Begin);
    ResumesAt(w, s, win, p, g);
    var m := FinishRun(w, Drive(w, s1, 1), win, p, 0, g);
    n := Joined(w, s1, 1, m, win, p, w.maxPages, g);
  }

  /** Bounded catch-up: an open window standing at page `p` of `n` closes, at its own end, in
      ceil((n - p) / maxPages) undisturbed runs. */
  lemma {:induction false} WindowClosesInTime(w: World, s: State, win: Window, p: nat, g: Course) returns (lengths: seq<nat>)
    requires w.maxPages > 0 && Paused(w, s, win, p) && OnCourse(s, Ahead(w.listing(win.startMs, win.endMs), p), g)
    ensures var l := w.listing(win.startMs, win.endMs);
      && |lengths| == (|l.pages| - p + w.maxPages - 1) / w.maxPages
      && ClosedAs(Runs(w, s, lengths), win, g)
    decreases |w.listing(win.startMs, win.endMs).pages| - p, 1
  {
    var n := OneRun(w, s, win, p, g);
    lengths := AfterOneRun(w, s, n, win, p, g);
  }

  /** The window is closed at its own end, and the inbox is as emitting all it held makes it. */
  predicate ClosedAs(t: State, win: Window, g: Course) {
    t.worker.None? && t.row.Some? && t.row.value.value == Closed(win) && OnCourse(t, [], g)
  }

  lemma AfterOneRun(w: World, s: State, n: nat, win: Window, p: nat, g: Course) returns (lengths: seq<nat>)
    requires w.maxPages > 0 && RunEnded(w, Drive(w, Step(w, s, Begin), n), win, p, w.maxPages, g)
    ensures var l := w.listing(win.startMs, win.endMs);
      && |lengths| == (|l.pages| - p + w.maxPages - 1) / w.maxPages
      && ClosedAs(Runs(w, s, lengths), win, g)
    decreases |w.listing(win.startMs, win.endMs).pages| - p, 0
  {
    var l := w.listing(win.startMs, win.endMs);
    var t := Drive(w, Step(w, s, Begin), n);
    if |l.pages| - p <= w.maxPages {
      lengths := [n];
      assert lengths[1..] == [];
      assert Runs(w, s, lengths) == Runs(w, t, []) == t;
      CeilingOfOne(|l.pages| - p, w.maxPages);
    } else {
      PositionOfToken(l, p + w.maxPages - 1);
      var more := WindowClosesInTime(w, t, win.(pageToken := l.tokens[p + w.maxPages - 1]), p + w.maxPages, g);
      lengths := [n] + more;
      assert lengths[1..] == more;
      CeilingDrops(|l.pages| - p, w.maxPages);
    }
  }

  /** Between runs, with no window open and one to be opened. */
  predicate Idle(w: World, s: State) {
    && s.worker.None? && (s.row.Some? ==> s.row.value.value.window.None?)
    && Opened(w, RowValue(s), s.now).Some?
    && var win := Opened(w, RowValue(s), s.now).value.window.value;
      WellListed(w.listing(win.startMs, win.endMs))
  }

  /** The window that is opened next. */
  function Coming(w: World, s: State): Window
    requires Idle(w, s)
  {
    Opened(w, RowValue(s), s.now).value.window.value
  }

  function AllAhead(w: World, s: State): seq<Item>
    requires Idle(w, s)
  {
    Ahead(w.listing(Coming(w, s).startMs, Coming(w, s).endMs), 0)
  }

  /** A first run saves its window before it reads a page. */
  lemma FirstWindow(w: World, s: State, g: Course) returns (n: nat)
    requires w.maxPages > 0 && Idle(w, s) && s.row.None? && OnCourse(s, AllAhead(w, s), g)
    ensures RunEnded(w, Drive(w, Step(w, s, Begin), n), Coming(w, s), 0, w.maxPages, g)
  {
    var v := Opened(w, RowValue(s), s.now).value;
    var s1 := Step(w, s, Begin);
    var s2 := Step(w, s1, ReadCursor);
    var s3 := Step(w, s2, SaveCursor);
    assert Drive(w, s1, 2) == Drive(w, s2, 1) == Drive(w, s3, 0) == s3;
    assert AtPage(w, s3, v.window.value, 0, 0, g);
    var m := FinishRun(w, s3, v.window.value, 0, 0, g);
    DriveAdds(w, s1, 2, m);
    n := 2 + m;
  }

  /** What a later run works with once it has read the cursor row. */
  function Opening(s: State, v: CursorValue, pc: Pc): State
    requires s.row.Some?
  {
    Go(s, Worker(pc, s.row.value.version, Some(s.row.value.value), Some(v), {""}, 0))
  }

  lemma OpeningIsRead(w: World, s: State)
    requires Idle(w, s) && s.row.Some?
    ensures Step(w, Step(w, s, Begin), ReadCursor) == Opening(s, Opened(w, RowValue(s), s.now).value, Fetch)
    ensures Next(w, Step(w, s, Begin).worker.value) == ReadCursor
  {}

  lemma OpeningIsFetched(w: World, s: State, v: CursorValue)
    requires s.row.Some? && v.window.Some? && v.window.value.pageToken == ""
    requires WellListed(w.listing(v.window.value.startMs, v.window.value.endMs))
    ensures var r := PageAt(w.listing(v.window.value.startMs, v.window.value.endMs), 0);
      && Next(w, Opening(s, v, Fetch).worker.value) == FetchAnswer(r)
      && Step(w, Opening(s, v, Fetch), FetchAnswer(r))
        == Opening(s, v, if r.items == [] && !r.hasMore then SaveIdle(Closed(v.window.value)) else SaveOpening(v, r))
  {
    var l := w.listing(v.window.value.startMs, v.window.value.endMs);
    var r := PageAt(l, 0);
    assert |r.items| == |l.pages[0]|;
    assert Unwrap(r.items) == l.pages[0];
  }

  lemma OpeningIsSaved(w: World, s: State, v: CursorValue, g: Course)
    requires s.row.Some? && v.window.Some? && v.window.value.pageToken == ""
    requires WellListed(w.listing(v.window.value.startMs, v.window.value.endMs))
    requires OnCourse(s, Ahead(w.listing(v.window.value.startMs, v.window.value.endMs), 0), g)
    ensures var l := w.listing(v.window.value.startMs, v.window.value.endMs);
      var t := Step(w, Opening(s, v, SaveOpening(v, PageAt(l, 0))), SaveCursor);
      && t.worker.Some? && t.worker.value.pc == Emit(l.pages[0], PageAt(l, 0))
      && AtPage(w, Go(t, t.worker.value.(pc := Fetch)), v.window.value, 0, 0, g)
  {
    var l := w.listing(v.window.value.startMs, v.window.value.endMs);
    var r := PageAt(l, 0);
    assert |r.items| == |l.pages[0]|;
    assert Unwrap(r.items) == l.pages[0];
  }

  lemma DriveThree(w: World, s: State)
    requires s.worker.Some?
    ensures var t := Step(w, s, Next(w, s.worker.value));
      t.worker.Some? ==>
        var u := Step(w, t, Next(w, t.worker.value));
        u.worker.Some? ==> Drive(w, s, 3) == Step(w, u, Next(w, u.worker.value))
  {
    var t := Step(w, s, Next(w, s.worker.value));
    if t.worker.Some? {
      var u := Step(w, t, Next(w, t.worker.value));
      if u.worker.Some? { assert Drive(w, s, 3) == Drive(w, t, 2) == Drive(w, u, 1) == Drive(w, Step(w, u, Next(w, u.worker.value)), 0); }
    }
  }

  /** A later run opens its window by its first page: an empty last page closes it at once, any
      other saves it and goes on. */
  lemma NextWindow(w: World, s: State, g: Course) returns (n: nat)
    requires w.maxPages > 0 && Idle(w, s) && s.row.Some? && OnCourse(s, AllAhead(w, s), g)
    ensures RunEnded(w, Drive(w, Step(w, s, Begin), n), Coming(w, s), 0, w.maxPages, g)
  {
    var l := w.listing(Coming(w, s).startMs, Coming(w, s).endMs);
    if l.pages[0] == [] && |l.pages| == 1 {
      IdleWindow(w, s, g);
      n := 3;
    } else {
      var k := BusyWindow(w, s, g);
      n := PageThenRun(w, Step(w, s, Begin), k, Coming(w, s), g);
    }
  }

  lemma IdleWindow(w: World, s: State, g: Course)
    requires w.maxPages > 0 && Idle(w, s) && s.row.Some? && OnCourse(s, AllAhead(w, s), g)
    requires w.listing(Coming(w, s).startMs, Coming(w, s).endMs).pages == [[]]
    ensures RunEnded(w, Drive(w, Step(w, s, Begin), 3), Coming(w, s), 0, w.maxPages, g)
  {
    var v := Opened(w, RowValue(s), s.now).value;
    var l := w.listing(v.window.value.startMs, v.window.value.endMs);
    NothingAhead(l);
    OpeningIsRead(w, s);
    OpeningIsFetched(w, s, v);
    DriveThree(w, Step(w, s, Begin));
  }

  lemma BusyWindow(w: World, s: State, g: Course) returns (n: nat)
    requires w.maxPages > 0 && Idle(w, s) && s.row.Some? && OnCourse(s, AllAhead(w, s), g)
    requires w.listing(Coming(w, s).startMs, Coming(w, s).endMs).pages != [[]]
    ensures PageTaken(w, Drive(w, Step(w, s, Begin), n), Coming(w, s), 0, 0, g)
  {
    var l := w.listing(Coming(w, s).startMs, Coming(w, s).endMs);
    var t := WindowIsOpened(w, s, g);
    EmitPage(w, t, Coming(w, s), 0, 0, g);
    DriveAdds(w, Step(w, s, Begin), 3, |l.pages[0]| + 2);
    n := 3 + (|l.pages[0]| + 2);
  }

  /** The three steps that read the cursor, fetch the first page and save the window. */
  lemma WindowIsOpened(w: World, s: State, g: Course) returns (t: State)
    requires w.maxPages > 0 && Idle(w, s) && s.row.Some? && OnCourse(s, AllAhead(w, s), g)
    requires w.listing(Coming(w, s).startMs, Coming(w, s).endMs).pages != [[]]
    ensures t == Drive(w, Step(w, s, Begin), 3) && t.worker.Some?
    ensures var l := w.listing(Coming(w, s).startMs, Coming(w, s).endMs); t.worker.value.pc == Emit(l.pages[0], PageAt(l, 0))
    ensures AtPage(w, Go(t, t.worker.value.(pc := Fetch)), Coming(w, s), 0, 0, g)
  {
    var v := Opened(w, RowValue(s), s.now).value;
    var l := w.listing(v.window.value.startMs, v.window.value.endMs);
    OpeningIsRead(w, s);
    OpeningIsFetched(w, s, v);
    DriveThree(w, Step(w, s, Begin));
    OpeningIsSaved(w, s, v, g);
    assert l.pages[0] == [] && |l.pages| == 1 ==> l.pages == [[]];
    t := Step(w, Opening(s, v, SaveOpening(v, PageAt(l, 0))), SaveCursor);
  }

  lemma PageThenRun(w: World, s: State, k: nat, win: Window, g: Course) returns (n: nat)
    requires w.maxPages > 0 && PageTaken(w, Drive(w, s, k), win, 0, 0, g)
    ensures RunEnded(w, Drive(w, s, n), win, 0, w.maxPages, g)
  {
    var m := AfterPage(w, Drive(w, s, k), win, 0, 0, g);
    n := Joined(w, s, k, m, win, 0, w.maxPages, g);
  }

  /** From no window at all: the window that catch-up opens next, be it the first ever or the one
      after a closed cursor, is closed at its own end in ceil(n / maxPages) undisturbed runs, for
      the n pages its listing has. */
  lemma CatchesUpInTime(w: World, s: State, g: Course) returns (lengths: seq<nat>)
    requires w.maxPages > 0 && Idle(w, s) && OnCourse(s, AllAhead(w, s), g)
    ensures var l := w.listing(Coming(w, s).startMs, Coming(w, s).endMs);
      && |lengths| == (|l.pages| + w.maxPages - 1) / w.maxPages
      && ClosedAs(Runs(w, s, lengths), Coming(w, s), g)
  {
    var n: nat;
    if s.row.Some? { n := NextWindow(w, s, g); } else { n := FirstWindow(w, s, g); }
    lengths := AfterOneRun(w, s, n, Coming(w, s), 0, g);
  }

  // ---------- A conflict stalls its window ----------

  /** The event is in the inbox and would be a duplicate. */
  predicate Filed(t: Inbound.Tables, e: Inbound.Event) {
    && e.key in t.inbox
    && (t.inbox[e.key].identity == e.identity || (Inbound.HasReceipt(t, e) && e.history))
    && (e.identity.canonical ==> Inbound.HasReceipt(t, e))
  }

  lemma FiledStays(t: Inbound.Tables, e: Inbound.Event, f: Inbound.Event)
    requires Filed(t, e)
    ensures Inbound.Answer(t, e) != Inbound.Conflict && Inbound.Accept(t, e) == t
    ensures Filed(Inbound.Accept(t, f), e)
  {}

  lemma AcceptFiles(t: Inbound.Tables, e: Inbound.Event)
    requires Inbound.Answer(t, e) != Inbound.Conflict
    ensures Filed(Inbound.Accept(t, e), e)
  {}

  /** All of `items` that are reached are in the inbox. */
  predicate AllFiled(t: Inbound.Tables, processing: set<string>, items: seq<Item>) {
    forall it :: it in items && Reaches(processing, it) ==> Filed(t, it.event)
  }

  /** Emitting again what was emitted changes nothing and stops nothing. */
  lemma {:induction false} FiledPrefix(t: Inbound.Tables, processing: set<string>, a: seq<Item>, b: seq<Item>)
    requires AllFiled(t, processing, a)
    ensures Smooth(t, processing, a + b) <==> Smooth(t, processing, b)
    decreases |a|
  {
    if a == [] {
      assert a + b == b;
    } else {
      assert (a + b)[1..] == a[1..] + b;
      if Reaches(processing, a[0]) { FiledStays(t, a[0].event, a[0].event); }
      assert forall it :: it in a[1..] ==> it in a;
      FiledPrefix(t, processing, a[1..], b);
    }
  }

  /** One more item of a page is emitted. */
  lemma FiledGrows(t: Inbound.Tables, processing: set<string>, page: seq<Item>, k: nat)
    requires k < |page| && AllFiled(t, processing, page[..k]) && !Meets(t, processing, page[k])
    ensures AllFiled(After(t, processing, page[k]), processing, page[..k + 1])
  {
    var u := After(t, processing, page[k]);
    forall it | it in page[..k + 1] && Reaches(processing, it)
      ensures Filed(u, it.event)
    {
      if it in page[..k] {
        FiledStays(t, it.event, page[k].event);
      } else {
        assert it == page[k];
        AcceptFiles(t, page[k].event);
      }
    }
  }

  /** The page of an open window, partly emitted: what is not left to do is in the inbox. */
  predicate Emitting(t: Inbound.Tables, processing: set<string>, page: seq<Item>, todo: seq<Item>) {
    && |todo| <= |page| && todo == page[|page| - |todo|..]
    && AllFiled(t, processing, page[..|page| - |todo|])
  }

  /** What a run on page `p` of the window of `row` is doing. */
  predicate WorksOn(s: State, x: Worker, row: Row, win: Window, l: Listing, p: nat)
    requires WellListed(l) && p < |l.pages|
  {
    && x.opening.None?
    && (x.pc.Read? ||
      (&& x.version == row.version && x.cursor == Some(row.value)
       && (|| x.pc.Fetch?
           || (x.pc.Emit? && x.pc.response == PageAt(l, p) && Emitting(s.record.tables, s.processing, l.pages[p], x.pc.todo))
           || (&& x.pc.SavePage? && p + 1 < |l.pages| && AllFiled(s.record.tables, s.processing, l.pages[p])
               && x.pc.value == row.value.(window := Some(win.(pageToken := l.tokens[p])))))))
  }

  /** An open window ahead of whose end a conflict waits. */
  predicate Blocked(w: World, s: State) {
    && s.row.Some? && s.row.value.value.window.Some?
    && var win := s.row.value.value.window.value;
    var l := w.listing(win.startMs, win.endMs);
    && WellListed(l) && Position(l, win.pageToken) < |l.pages|
    && var p := Position(l, win.pageToken);
    && !Smooth(s.record.tables, s.processing, Ahead(l, p))
    && (s.worker.Some? ==> WorksOn(s, s.worker.value, s.row.value, win, l, p))
  }

  predicate StillOpen(t: State, win: Window) {
    && t.row.Some? && t.row.value.value.window.Some?
    && t.row.value.value.window.value == win.(pageToken := t.row.value.value.window.value.pageToken)
  }

  lemma BlockedReads(w: World, s: State, x: Worker, win: Window)
    requires Blocked(w, s) && StillOpen(s, win) && s.worker == Some(x) && (x.pc.Read? || x.pc.Fetch?)
    ensures Blocked(w, Step(w, s, Next(w, x))) && StillOpen(Step(w, s, Next(w, x)), win)
  {
    var cur := s.row.value.value.window.value;
    var l := w.listing(cur.startMs, cur.endMs);
    var p := Position(l, cur.pageToken);
    if x.pc.Fetch? {
      var r := PageAt(l, p);
      assert |r.items| == |l.pages[p]| <= 50;
      assert Unwrap(r.items) == l.pages[p] == l.pages[p][0..];
      assert l.pages[p][..0] == [];
    }
  }

  lemma BlockedPageEnds(w: World, s: State, x: Worker, win: Window)
    requires Blocked(w, s) && StillOpen(s, win) && s.worker == Some(x) && x.pc.Emit? && x.pc.todo == []
    ensures Blocked(w, Step(w, s, Next(w, x))) && StillOpen(Step(w, s, Next(w, x)), win)
  {
    var cur := s.row.value.value.window.value;
    var l := w.listing(cur.startMs, cur.endMs);
    var p := Position(l, cur.pageToken);
    assert l.pages[p][..|l.pages[p]|] == l.pages[p];
    FiledPrefix(s.record.tables, s.processing, l.pages[p], Ahead(l, p + 1));
  }

  lemma BlockedEmits(w: World, s: State, x: Worker, win: Window)
    requires Blocked(w, s) && StillOpen(s, win) && s.worker == Some(x) && x.pc.Emit? && x.pc.todo != []
    ensures Blocked(w, Step(w, s, Next(w, x))) && StillOpen(Step(w, s, Next(w, x)), win)
  {
    var cur := s.row.value.value.window.value;
    var l := w.listing(cur.startMs, cur.endMs);
    var p := Position(l, cur.pageToken);
    var page := l.pages[p];
    var k := |page| - |x.pc.todo|;
    assert x.pc.todo[0] == page[k] && x.pc.todo[1..] == page[k + 1..];
    if !Meets(s.record.tables, s.processing, page[k]) {
      FiledGrows(s.record.tables, s.processing, page, k);
      StaysUnsmooth(s.record.tables, s.processing, page, k, Ahead(l, p + 1));
      EmitAdmits(s, x);
    }
  }

  /** What an emission that meets no conflict does. */
  lemma EmitAdmits(s: State, x: Worker)
    requires s.worker == Some(x) && Emits(s) && x.pc.todo != [] && !Meets(s.record.tables, s.processing, x.pc.todo[0])
    ensures var t := OnEmit(s, x, Registered);
      && t.record.tables == After(s.record.tables, s.processing, x.pc.todo[0])
      && t == s.(record := t.record, worker := Some(x.(pc := x.pc.(todo := x.pc.todo[1..]))))
  {}

  /** The conflict ahead is still ahead after one more item. */
  lemma StaysUnsmooth(t: Inbound.Tables, processing: set<string>, page: seq<Item>, k: nat, rest: seq<Item>)
    requires k < |page| && AllFiled(t, processing, page[..k]) && !Meets(t, processing, page[k])
    requires !Smooth(t, processing, page + rest)
    ensures !Smooth(After(t, processing, page[k]), processing, page + rest)
  {
    var u := After(t, processing, page[k]);
    assert page + rest == page[..k] + (page[k..] + rest) == page[..k + 1] + (page[k + 1..] + rest);
    FiledPrefix(t, processing, page[..k], page[k..] + rest);
    assert (page[k..] + rest)[0] == page[k] && (page[k..] + rest)[1..] == page[k + 1..] + rest;
    FiledGrows(t, processing, page, k);
    FiledPrefix(u, processing, page[..k + 1], page[k + 1..] + rest);
  }

  lemma BlockedSaves(w: World, s: State, x: Worker, win: Window)
    requires Blocked(w, s) && StillOpen(s, win) && s.worker == Some(x) && x.pc.SavePage?
    ensures Blocked(w, Step(w, s, Next(w, x))) && StillOpen(Step(w, s, Next(w, x)), win)
  {
    var cur := s.row.value.value.window.value;
    var l := w.listing(cur.startMs, cur.endMs);
    var p := Position(l, cur.pageToken);
    PositionOfToken(l, p);
    FiledPrefix(s.record.tables, s.processing, l.pages[p], Ahead(l, p + 1));
  }

  lemma BlockedStep(w: World, s: State, win: Window)
    requires Blocked(w, s) && StillOpen(s, win) && s.worker.Some?
    ensures Blocked(w, Step(w, s, Next(w, s.worker.value))) && StillOpen(Step(w, s, Next(w, s.worker.value)), win)
  {
    var x := s.worker.value;
    if x.pc.Read? || x.pc.Fetch? {
      BlockedReads(w, s, x, win);
    } else if x.pc.SavePage? {
      BlockedSaves(w, s, x, win);
    } else if x.pc.todo == [] {
      BlockedPageEnds(w, s, x, win);
    } else {
      BlockedEmits(w, s, x, win);
    }
  }

  lemma BlockedNext(w: World, s: State, win: Window, n: nat) returns (t: State)
    requires Blocked(w, s) && StillOpen(s, win) && s.worker.Some? && n > 0
    ensures Blocked(w, t) && StillOpen(t, win) && Drive(w, s, n) == Drive(w, t, n - 1)
  {
    BlockedStep(w, s, win);
    t := Step(w, s, Next(w, s.worker.value));
  }

  lemma {:induction false} BlockedDrive(w: World, s: State, win: Window, n: nat) returns (t: State)
    requires Blocked(w, s) && StillOpen(s, win)
    ensures t == Drive(w, s, n) && Blocked(w, t) && StillOpen(t, win)
    decreases n
  {
    if n > 0 && s.worker.Some? {
      var u := BlockedNext(w, s, win, n);
      t := BlockedDrive(w, u, win, n - 1);
    } else {
      t := s;
    }
  }

  lemma {:induction false} BlockedRuns(w: World, s: State, win: Window, lengths: seq<nat>)
    requires Blocked(w, s) && StillOpen(s, win)
    ensures StillOpen(Runs(w, s, lengths), win)
    decreases |lengths|
  {
    if lengths != [] {
      var t := BlockedDrive(w, Step(w, s, Begin), win, lengths[0]);
      BlockedRuns(w, t, win, lengths[1..]);
    }
  }

  /** A run that has yet to save the window it is opening. */
  predicate Opens(s: State, x: Worker, v: CursorValue, r: Response) {
    || (x.pc.Read? && x.opening.None?)
    || (s.row.None? && x.pc == SaveFirst(v) && x.version == 0 && x.opening.None?)
    || (s.row.Some? && x.version == RowVersion(s) && x.cursor == RowValue(s) && x.opening == Some(v)
      && (x.pc.Fetch? || x.pc == SaveOpening(v, r)))
  }

  /** A conflict waits in the window that is being opened. */
  predicate BlockedOpening(w: World, s: State) {
    && Idle(w, s.(worker := None))
    && s.worker.Some?
    && var v := Opened(w, RowValue(s), s.now).value;
    var l := w.listing(v.window.value.startMs, v.window.value.endMs);
    && !Smooth(s.record.tables, s.processing, Ahead(l, 0))
    && Opens(s, s.worker.value, v, PageAt(l, 0))
  }

  /** Nothing is saved yet, or the window is open and stays so. */
  predicate Stalls(w: World, s: State, row: Option<Row>, win: Window) {
    || (s.row == row && BlockedOpening(w, s) && Coming(w, s.(worker := None)) == win)
    || (Blocked(w, s) && StillOpen(s, win))
  }

  lemma OpeningSaves(w: World, s: State, x: Worker)
    requires BlockedOpening(w, s) && s.worker == Some(x) && x.pc.Saves()
    ensures var t := Step(w, s, SaveCursor); Blocked(w, t) && StillOpen(t, Coming(w, s.(worker := None)))
  {
    var v := Opened(w, RowValue(s), s.now).value;
    var l := w.listing(v.window.value.startMs, v.window.value.endMs);
    var r := PageAt(l, 0);
    assert |r.items| == |l.pages[0]| <= 50;
    assert Unwrap(r.items) == l.pages[0] == l.pages[0][0..];
    assert l.pages[0][..0] == [];
  }

  lemma OpeningFetches(w: World, s: State, x: Worker)
    requires BlockedOpening(w, s) && s.worker == Some(x) && x.pc.Fetch?
    ensures var t := Step(w, s, Next(w, x)); t.row == s.row && t.now == s.now && BlockedOpening(w, t)
  {
    var v := Opened(w, RowValue(s), s.now).value;
    var l := w.listing(v.window.value.startMs, v.window.value.endMs);
    var r := PageAt(l, 0);
    assert |r.items| == |l.pages[0]| <= 50;
    assert Unwrap(r.items) == l.pages[0];
    NothingAhead(l);
    assert |l.pages| == 1 ==> l.pages == [l.pages[0]];
  }

  lemma StallsStep(w: World, s: State, row: Option<Row>, win: Window)
    requires Stalls(w, s, row, win) && s.worker.Some?
    ensures Stalls(w, Step(w, s, Next(w, s.worker.value)), row, win)
  {
    var x := s.worker.value;
    if Blocked(w, s) && StillOpen(s, win) {
      BlockedStep(w, s, win);
    } else if x.pc.Saves() {
      OpeningSaves(w, s, x);
    } else if x.pc.Fetch? {
      OpeningFetches(w, s, x);
    }
  }

  lemma {:induction false} StallsDrive(w: World, s: State, row: Option<Row>, win: Window, n: nat)
    requires Stalls(w, s, row, win)
    ensures Stalls(w, Drive(w, s, n), row, win)
    decreases n
  {
    if n > 0 && s.worker.Some? {
      StallsStep(w, s, row, win);
      StallsDrive(w, Step(w, s, Next(w, s.worker.value)), row, win, n - 1);
    }
  }

  lemma {:induction false} StallsRuns(w: World, s: State, row: Option<Row>, win: Window, lengths: seq<nat>)
    requires Stalls(w, s, row, win)
    ensures var t := Runs(w, s, lengths); StillOpen(t, win) || (t.row == row && t.worker.Some?)
    decreases |lengths|
  {
    if lengths != [] {
      assert Stalls(w, Step(w, s, Begin), row, win);
      StallsDrive(w, Step(w, s, Begin), row, win, lengths[0]);
      StallsRuns(w, Drive(w, Step(w, s, Begin), lengths[0]), row, win, lengths[1..]);
    }
  }

  // ---------- When a window closes ----------

  predicate Ended(t: State, win: Window) { t.worker.None? && t.row.Some? && t.row.value.value == Closed(win) }

  /** Some undisturbed runs, at least one, close the window. */
  ghost predicate Closes(w: World, s: State, win: Window) {
    exists lengths :: lengths != [] && Ended(Runs(w, s, lengths), win)
  }

  ghost predicate ClosesIn(w: World, s: State, win: Window, count: nat) {
    exists lengths :: |lengths| == count && Ended(Runs(w, s, lengths), win)
  }

  /** Whatever undisturbed runs there are, the window is open afterwards, or the row as it was. */
  ghost predicate NeverCloses(w: World, s: State, win: Window) {
    forall lengths :: Runs(w, s, lengths).row == s.row || StillOpen(Runs(w, s, lengths), win)
  }

  /** How many runs a number of pages takes. */
  function RunsFor(w: World, pages: nat): nat
    requires w.maxPages > 0
  {
    (pages + w.maxPages - 1) / w.maxPages
  }

  lemma SmoothCloses(w: World, s: State, win: Window, p: nat)
    requires w.maxPages > 0 && Paused(w, s, win, p)
    requires Smooth(s.record.tables, s.processing, Ahead(w.listing(win.startMs, win.endMs), p))
    ensures Closes(w, s, win) && ClosesIn(w, s, win, RunsFor(w, |w.listing(win.startMs, win.endMs).pages| - p))
  {
    var l := w.listing(win.startMs, win.endMs);
    var g := Course(s.processing, s.now, AfterAll(s.record.tables, s.processing, Ahead(l, p)));
    var lengths := WindowClosesInTime(w, s, win, p, g);
    assert Ended(Runs(w, s, lengths), win);
    CeilingIsPositive(|l.pages| - p, w.maxPages);
  }

  lemma ConflictStalls(w: World, s: State, win: Window, p: nat)
    requires Paused(w, s, win, p)
    requires !Smooth(s.record.tables, s.processing, Ahead(w.listing(win.startMs, win.endMs), p))
    ensures !Closes(w, s, win) && NeverCloses(w, s, win)
  {
    forall lengths
      ensures StillOpen(Runs(w, s, lengths), win) && !Ended(Runs(w, s, lengths), win)
    {
      BlockedRuns(w, s, win, lengths);
    }
  }

  /** Bounded catch-up, exactly: an open window standing at page `p` of `n` is closed by undisturbed
      runs, namely by ceil((n - p) / maxPages) of them, if and only if nothing ahead of it is
      answered with a conflict when it is reached. Otherwise it stays open for good. */
  lemma WindowClosesExactly(w: World, s: State, win: Window, p: nat)
    requires w.maxPages > 0 && Paused(w, s, win, p)
    ensures var l := w.listing(win.startMs, win.endMs);
      var smooth := Smooth(s.record.tables, s.processing, Ahead(l, p));
      && (smooth <==> Closes(w, s, win))
      && (smooth ==> ClosesIn(w, s, win, RunsFor(w, |l.pages| - p)))
      && (!smooth ==> NeverCloses(w, s, win))
  {
    if Smooth(s.record.tables, s.processing, Ahead(w.listing(win.startMs, win.endMs), p)) {
      SmoothCloses(w, s, win, p);
    } else {
      ConflictStalls(w, s, win, p);
    }
  }

  lemma SmoothCatchesUp(w: World, s: State)
    requires w.maxPages > 0 && Idle(w, s) && Smooth(s.record.tables, s.processing, AllAhead(w, s))
    ensures Closes(w, s, Coming(w, s))
    ensures ClosesIn(w, s, Coming(w, s), RunsFor(w, |w.listing(Coming(w, s).startMs, Coming(w, s).endMs).pages|))
  {
    var g := Course(s.processing, s.now, AfterAll(s.record.tables, s.processing, AllAhead(w, s)));
    var lengths := CatchesUpInTime(w, s, g);
    assert Ended(Runs(w, s, lengths), Coming(w, s));
    CeilingIsPositive(|w.listing(Coming(w, s).startMs, Coming(w, s).endMs).pages|, w.maxPages);
  }

  lemma ConflictStallsOpening(w: World, s: State)
    requires Idle(w, s) && !Smooth(s.record.tables, s.processing, AllAhead(w, s))
    ensures !Closes(w, s, Coming(w, s)) && NeverCloses(w, s, Coming(w, s))
  {
    forall lengths
      ensures var t := Runs(w, s, lengths);
        (t.row == s.row || StillOpen(t, Coming(w, s))) && (lengths != [] ==> !Ended(t, Coming(w, s)))
    {
      NeverCatchesUp(w, s, lengths);
    }
  }

  /** The same from no window at all, for the window that is opened next, be it the first ever or
      the one after a closed cursor. */
  lemma CatchesUpExactly(w: World, s: State)
    requires w.maxPages > 0 && Idle(w, s)
    ensures var win := Coming(w, s);
      var smooth := Smooth(s.record.tables, s.processing, AllAhead(w, s));
      && (smooth <==> Closes(w, s, win))
      && (smooth ==> ClosesIn(w, s, win, RunsFor(w, |w.listing(win.startMs, win.endMs).pages|)))
      && (!smooth ==> NeverCloses(w, s, win))
  {
    if Smooth(s.record.tables, s.processing, AllAhead(w, s)) {
      SmoothCatchesUp(w, s);
    } else {
      ConflictStallsOpening(w, s);
    }
  }

  lemma NeverCatchesUp(w: World, s: State, lengths: seq<nat>)
    requires Idle(w, s) && !Smooth(s.record.tables, s.processing, AllAhead(w, s))
    ensures var t := Runs(w, s, lengths);
      StillOpen(t, Coming(w, s)) || (t.row == s.row && (lengths == [] || t.worker.Some?))
  {
    if lengths != [] {
      var s1 := Step(w, s, Begin);
      assert s1.(worker := None) == s;
      assert Stalls(w, s1, s.row, Coming(w, s));
      StallsDrive(w, s1, s.row, Coming(w, s), lengths[0]);
      StallsRuns(w, Drive(w, s1, lengths[0]), s.row, Coming(w, s), lengths[1..]);
    }
  }

  lemma CeilingIsPositive(a: nat, b: nat)
    requires a > 0 && b > 0
    ensures (a + b - 1) / b > 0
  {
    if a <= b { CeilingOfOne(a, b); } else { CeilingDrops(a, b); }
  }

  // ---------- What meets a conflict ----------

  /** What an event key is the key of: a message, or an event about one. */
  datatype About = About(canonical: bool, message: Inbound.Message)

  predicate Names(about: string -> About, key: string, x: Inbound.Identity) {
    about(key) == About(x.canonical, Inbound.MessageOf(x))
  }

  /** A key determines the message and kind of its event, for the rows of the inbox as for `items`. */
  predicate KeysName(about: string -> About, t: Inbound.Tables, items: seq<Item>) {
    && (forall k :: k in t.inbox ==> Names(about, k, t.inbox[k].identity))
    && (forall it :: it in items ==> Names(about, it.event.key, it.event.identity) && it.event.history)
  }

  predicate SameUnderKey(a: Inbound.Event, b: Inbound.Event) { a.key == b.key ==> a.identity == b.identity }

  /** Observed as it stands in the inbox, and as it was observed before. */
  predicate Agrees(t: Inbound.Tables, processing: set<string>, items: seq<Item>, i: nat)
    requires i < |items|
  {
    var e := items[i].event;
    && (e.key in t.inbox ==> t.inbox[e.key].identity == e.identity)
    && (forall j :: 0 <= j < i && Reaches(processing, items[j]) ==> SameUnderKey(items[j].event, e))
  }

  predicate ReachesRecall(processing: set<string>, it: Item) { Reaches(processing, it) && !it.event.identity.canonical }

  predicate Unchanged(t: Inbound.Tables, processing: set<string>, items: seq<Item>) {
    forall i :: 0 <= i < |items| && ReachesRecall(processing, items[i]) ==> Agrees(t, processing, items, i)
  }

  /** Only what is no message can stall a window: nothing is answered with a conflict if and only
      if every recall that is reached stands under its key as it is now observed. A message is
      never a conflict, however it changed since it was received. */
  lemma {:induction false} SmoothExactly(about: string -> About, t: Inbound.Tables, processing: set<string>, items: seq<Item>)
    requires Inbound.Valid(t) && KeysName(about, t, items)
    ensures Smooth(t, processing, items) <==> Unchanged(t, processing, items)
    decreases |items|
  {
    if items != [] {
      var it, rest := items[0], items[1..];
      MeetsExactly(about, t, processing, items);
      if !Meets(t, processing, it) {
        NamesAfter(about, t, processing, items);
        SmoothExactly(about, After(t, processing, it), processing, rest);
        UnchangedAfter(about, t, processing, items);
      }
    }
  }

  lemma NamesAfter(about: string -> About, t: Inbound.Tables, processing: set<string>, items: seq<Item>)
    requires items != [] && Inbound.Valid(t) && KeysName(about, t, items)
    ensures var u := After(t, processing, items[0]); Inbound.Valid(u) && KeysName(about, u, items[1..])
  {
    Inbound.AcceptKeepsValid(t, items[0].event);
    assert items[0] in items && forall it :: it in items[1..] ==> it in items;
  }

  lemma MeetsExactly(about: string -> About, t: Inbound.Tables, processing: set<string>, items: seq<Item>)
    requires items != [] && Inbound.Valid(t) && KeysName(about, t, items)
    ensures Meets(t, processing, items[0]) <==>
      ReachesRecall(processing, items[0]) && !Agrees(t, processing, items, 0)
  {
    var e := items[0].event;
    assert items[0] in items;
    if e.key in t.inbox { assert Names(about, e.key, t.inbox[e.key].identity); }
  }

  lemma UnchangedAfter(about: string -> About, t: Inbound.Tables, processing: set<string>, items: seq<Item>)
    requires items != [] && KeysName(about, t, items) && !Meets(t, processing, items[0])
    requires ReachesRecall(processing, items[0]) ==> Agrees(t, processing, items, 0)
    ensures Unchanged(t, processing, items) <==> Unchanged(After(t, processing, items[0]), processing, items[1..])
  {
    var u, rest := After(t, processing, items[0]), items[1..];
    forall i | 0 <= i < |rest| && ReachesRecall(processing, rest[i])
      ensures Agrees(u, processing, rest, i) <==> Agrees(t, processing, items, i + 1)
    {
      AgreesAfter(about, t, processing, items, i);
    }
    if Unchanged(u, processing, rest) {
      forall i | 0 <= i < |items| && ReachesRecall(processing, items[i])
        ensures Agrees(t, processing, items, i)
      {
        if i > 0 { assert rest[i - 1] == items[i]; }
      }
    }
  }

  lemma AgreesAfter(about: string -> About, t: Inbound.Tables, processing: set<string>, items: seq<Item>, i: nat)
    requires i < |items| - 1 && KeysName(about, t, items) && !Meets(t, processing, items[0])
    requires !items[i + 1].event.identity.canonical
    requires ReachesRecall(processing, items[0]) ==> Agrees(t, processing, items, 0)
    ensures Agrees(After(t, processing, items[0]), processing, items[1..], i) <==> Agrees(t, processing, items, i + 1)
  {
    var u, rest := After(t, processing, items[0]), items[1..];
    var e := items[i + 1].event;
    assert items[0] in items && items[i + 1] in items && rest[i] == items[i + 1];
    assert forall j :: 0 <= j < i ==> rest[j] == items[j + 1];
    if Agrees(u, processing, rest, i) {
      forall j | 0 <= j < i + 1 && Reaches(processing, items[j])
        ensures SameUnderKey(items[j].event, e)
      {
        if j > 0 { assert rest[j - 1] == items[j]; }
      }
    }
  }

  /** The keys of the inbox name their messages as soon as those of the receipts do. */
  lemma {:induction false} ReceiptsName(about: string -> About, t: Inbound.Tables, events: seq<Inbound.Event>)
    requires KeysName(about, t, [])
    requires forall e :: e in events ==> Names(about, e.key, e.identity)
    ensures KeysName(about, Inbound.AcceptAll(t, events), [])
    decreases |events|
  {
    if events != [] {
      assert events[0] in events;
      ReceiptsName(about, Inbound.Accept(t, events[0]), events[1..]);
    }
  }

  // ---------- Undisturbed runs are runs ----------

  lemma {:induction false} RunAppends(w: World, s: State, a: seq<Action>, b: seq<Action>)
    ensures Run(w, s, a + b) == Run(w, Run(w, s, a), b)
    ensures ClockForward(w, s, a + b) <==> ClockForward(w, s, a) && ClockForward(w, Run(w, s, a), b)
    decreases |a|
  {
    if a == [] {
      assert a + b == b;
    } else {
      assert (a + b)[1..] == a[1..] + b;
      RunAppends(w, Step(w, s, a[0]), a[1..], b);
    }
  }

  lemma {:induction false} DriveIsRun(w: World, s: State, n: nat) returns (actions: seq<Action>)
    ensures Run(w, s, actions) == Drive(w, s, n) && ClockForward(w, s, actions)
    decreases n
  {
    if n == 0 || s.worker.None? {
      actions := [];
    } else {
      var rest := DriveIsRun(w, Step(w, s, Next(w, s.worker.value)), n - 1);
      actions := [Next(w, s.worker.value)] + rest;
      assert actions[1..] == rest;
    }
  }

  lemma {:induction false} RunsAreRun(w: World, s: State, lengths: seq<nat>) returns (actions: seq<Action>)
    ensures Run(w, s, actions) == Runs(w, s, lengths) && ClockForward(w, s, actions)
    decreases |lengths|
  {
    if lengths == [] {
      actions := [];
    } else {
      var first := DriveIsRun(w, Step(w, s, Begin), lengths[0]);
      var rest := RunsAreRun(w, Drive(w, Step(w, s, Begin), lengths[0]), lengths[1..]);
      RunAppends(w, Step(w, s, Begin), first, rest);
      actions := [Begin] + (first + rest);
      assert actions[1..] == first + rest;
    }
  }

  lemma {:induction false} OriginStays(w: World, s: State, actions: seq<Action>)
    requires s.row.Some?
    ensures Run(w, s, actions).row.Some? && Run(w, s, actions).origin == s.origin
    decreases |actions|
  {
    if actions != [] { OriginStays(w, Step(w, s, actions[0]), actions[1..]); }
  }

  // ---------- A message that is lost ----------

  function LostMessage(): Item {
    Item(Inbound.Event("receive:1", Inbound.Identity(true, "chat", "m", "hello"), true, ["hook"]), false, 120000, 120000)
  }

  /** One page per window; the message was created two minutes after the first window. */
  function QuietChat(it: Item): World {
    World({it}, (a, b) => Listing([if a <= it.created <= b then [it] else []], []), 300000, 10800000, 20)
  }

  lemma QuietChatIsStable(it: Item)
    requires 0 <= it.created == it.visible
    ensures Stable(QuietChat(it)) && PagesStart(QuietChat(it))
  {
    var w := QuietChat(it);
    forall a, b | a <= it.created <= b
      ensures Listed(w.listing(a, b), it)
    {
      assert ShowsAt(w.listing(a, b), 0, it, it);
    }
  }

  /** Catch-up meets the message while it is being received live, closes its window over it, and
      then the live receipt fails. The message is covered, is not in the inbox, is not being received
      any more, and lies behind the overlap, where no run reads it again (`NeverReadAgain`). */
  lemma LostMessageIsReached() returns (actions: seq<Action>)
    ensures var it := LostMessage();
      var w := QuietChat(it);
      var s := Run(w, Initial(0), actions);
      && Stable(w) && PagesStart(w) && it in w.history && ClockForward(w, Initial(0), actions)
      && CoveredBy(s, it) && !it.skip && !Inbound.Recorded(s.record.tables, it.event)
      && s.processing == {} && s.worker.None?
      && it.created < NextStart(w, s.row.value.value.throughMs)
  {
    var it := LostMessage();
    var w := QuietChat(it);
    QuietChatIsStable(it);
    var first := FirstWindowCloses(w, []);
    var s1 := Run(w, Initial(0), first);
    var met := [SetClock(600000), ReceiptBegins(it.event)];
    var s2 := Run(w, s1, met);
    BothSteps(w, s1, met);
    var second := WindowPassesOver(w, s2, it);
    var s3 := Run(w, s2, second);
    var s4 := Run(w, s3, [ReceiptEnds("m")]);
    assert s4 == Run(w, Step(w, s3, ReceiptEnds("m")), []);
    RunAppends(w, Initial(0), first, met);
    RunAppends(w, Initial(0), first + met, second);
    RunAppends(w, Initial(0), first + met + second, [ReceiptEnds("m")]);
    OriginStays(w, s1, met);
    OriginStays(w, s2, second);
    actions := first + met + second + [ReceiptEnds("m")];
  }

  lemma BothSteps(w: World, s: State, actions: seq<Action>)
    requires |actions| == 2
    ensures Run(w, s, actions) == Step(w, Step(w, s, actions[0]), actions[1])
    ensures (actions[0].SetClock? ==> s.now <= actions[0].now) && !actions[1].SetClock? ==> ClockForward(w, s, actions)
  {
    var t := Step(w, s, actions[0]);
    assert Run(w, s, actions) == Run(w, t, actions[1..]) == Run(w, Step(w, t, actions[1]), actions[2..]);
    assert ClockForward(w, Step(w, t, actions[1]), actions[2..]);
  }

  /** A first window at time 0, with what it shows. */
  lemma FirstWindowCloses(w: World, items: seq<Item>) returns (actions: seq<Action>)
    requires Stable(w) && w.lookbackMs == 10800000 && w.listing(0, 0) == Listing([items], [])
    requires Smooth(Inbound.Empty(), {}, items)
    ensures ClockForward(w, Initial(0), actions)
    ensures var s := Run(w, Initial(0), actions);
      && s.worker.None? && s.now == 0 && s.processing == {}
      && s.record.tables == AfterAll(Inbound.Empty(), {}, items)
      && s.row.Some? && s.row.value.value == CursorValue(0, None) && s.origin.Some? && s.origin.value <= 0
  {
    var s := Initial(0);
    OnlyPage(w.listing(0, 0), items);
    var lengths := CatchesUpInTime(w, s, Course({}, 0, AfterAll(Inbound.Empty(), {}, items)));
    actions := RunsAreRun(w, s, lengths);
    assert Inv(w, s) && AllTimely(w, s) && OriginCovered(s);
    OriginIsCovered(w, s, actions);
  }

  lemma OnlyPage(l: Listing, items: seq<Item>)
    requires l.pages == [items]
    ensures Ahead(l, 0) == items
  {
    assert Ahead(l, 0) == items + Ahead(l, 1) == items + [];
  }

  lemma WindowPassesOver(w: World, s: State, it: Item) returns (actions: seq<Action>)
    requires w == QuietChat(it) && it == LostMessage()
    requires s.worker.None? && s.now == 600000 && s.processing == {"m"} && s.record.tables == Inbound.Empty()
    requires s.row.Some? && s.row.value.value == CursorValue(0, None)
    ensures ClockForward(w, s, actions)
    ensures var t := Run(w, s, actions);
      && t.worker.None? && t.processing == {"m"} && t.record.tables == Inbound.Empty()
      && t.row.Some? && t.row.value.value == CursorValue(600000, None)
  {
    OnlyPage(w.listing(0, 600000), [it]);
    var lengths := CatchesUpInTime(w, s, Course({"m"}, 600000, Inbound.Empty()));
    actions := RunsAreRun(w, s, lengths);
  }

  // ---------- A window that stalls ----------

  /** A recalled message as history shows it; `name` is how a mention in it reads. */
  function Recall(name: string): Item {
    Item(Inbound.Event("recall:1", Inbound.Identity(false, "chat", "m", name), true, []), false, 0, 0)
  }

  /** Between the first window and the next the name has changed, though not the recall's key. */
  function RenamedChat(): World {
    World({Recall("Ann")},
      (a, b) => Listing([if 0 < a then [] else if b == 0 then [Recall("Ann")] else [Recall("Anna")]], []),
      300000, 10800000, 20)
  }

  lemma RenamedChatIsStable()
    ensures Stable(RenamedChat())
  {
    var w := RenamedChat();
    forall a, b | a <= 0 <= b
      ensures Listed(w.listing(a, b), Recall("Ann"))
    {
      assert ShowsAt(w.listing(a, b), 0, if b == 0 then Recall("Ann") else Recall("Anna"), Recall("Ann"));
    }
  }

  /** A recall that is read again within the overlap, its mentions renamed, is a conflict: the
      window it is in never closes again, however many undisturbed runs there are. */
  lemma StalledWindowIsReached() returns (actions: seq<Action>)
    ensures var w := RenamedChat();
      var s := Run(w, Initial(0), actions);
      && Stable(w) && ClockForward(w, Initial(0), actions) && Idle(w, s)
      && !Closes(w, s, Coming(w, s)) && NeverCloses(w, s, Coming(w, s))
  {
    var w := RenamedChat();
    RenamedChatIsStable();
    var ann, anna := [Recall("Ann")], [Recall("Anna")];
    var first := FirstWindowCloses(w, ann);
    var s1 := Run(w, Initial(0), first);
    var s2 := Step(w, s1, SetClock(600000));
    RunAppends(w, Initial(0), first, [SetClock(600000)]);
    actions := first + [SetClock(600000)];
    OnlyPage(w.listing(0, 600000), anna);
    assert s1.record.tables == AfterAll(After(Inbound.Empty(), {}, ann[0]), {}, ann[1..]);
    assert Meets(s2.record.tables, {}, anna[0]);
    ConflictStallsOpening(w, s2);
  }

  lemma CeilingOfOne(a: nat, b: nat)
    requires 0 < a <= b
    ensures (a + b - 1) / b == 1
  {
    QuotientIsUnique(a + b - 1, b, 1, a - 1);
  }

  lemma QuotientIsUnique(x: nat, b: nat, q: nat, r: nat)
    requires b > 0 && x == q * b + r && r < b
    ensures x / b == q
  {
    var d := q - x / b;
    assert x == (x / b) * b + x % b;
    assert d * b == x % b - r;
    MultipleIsApart(d, b);
  }

  lemma MultipleIsApart(d: int, b: int)
    requires b > 0
    ensures d >= 1 ==> d * b >= b
    ensures d <= -1 ==> d * b <= -b
  {
    if d >= 1 { assert (d - 1) * b >= 0; }
    if d <= -1 { assert (-d - 1) * b >= 0; }
  }

  lemma CeilingDrops(a: nat, b: nat)
    requires 0 < b < a
    ensures (a + b - 1) / b == (a - b + b - 1) / b + 1
  {
    var x := a - 1;
    assert (x / b + 1) * b == (x / b) * b + b;
    QuotientIsUnique(x + b, b, x / b + 1, x % b);
  }
}
