/** The execution card (src/channels/feishu/execution-card.mjs, `ExecutionCard`): its list of
    entries, its terminal states, and the one request it has in flight.

    Rendering and the wording of the card are outside this model. */
module CardState {
  import opened Prelude

  const MAX_ENTRIES: nat := 24

  datatype ToolStatus = Running | Completed | Failed | Interrupted

  /** `at` is 0 when the event carries no time. */
  datatype Entry = Commentary(id: string, at: nat) | Tool(id: string, status: ToolStatus, at: nat)

  datatype Event = Started | Show(entry: Entry)

  predicate FinishedTool(e: Entry) { e.Tool? && e.status != Running }

  /** Where an id is, or the length. */
  function Find(s: seq<Entry>, id: string): (k: nat)
    ensures k <= |s|
    ensures k < |s| ==> s[k].id == id
    ensures forall i :: 0 <= i < k ==> s[i].id != id
  {
    if s == [] || s[0].id == id then 0 else 1 + Find(s[1..], id)
  }

  function WithTime(e: Entry, at: nat): Entry { if e.Tool? then e.(at := at) else e.(at := at) }

  /** The earlier of two times, where 0 stands for none. */
  function Earlier(a: nat, b: nat): nat { if a == 0 then b else if b == 0 then a else if a < b then a else b }

  /** The stable sort by time. */
  function Insert(s: seq<Entry>, e: Entry): seq<Entry> {
    if s == [] || s[|s| - 1].at <= e.at then s + [e] else Insert(s[..|s| - 1], e) + [s[|s| - 1]]
  }

  function SortByTime(s: seq<Entry>): seq<Entry> {
    if s == [] then [] else Insert(SortByTime(s[..|s| - 1]), s[|s| - 1])
  }

  datatype List = List(entries: seq<Entry>, omitted: bool)

  function OnShow(l: List, e: Entry): List {
    var k := Find(l.entries, e.id);
    if k < |l.entries| && FinishedTool(l.entries[k]) && e.Tool? && e.status == Running then l
    else
      var placed := if k < |l.entries| then l.entries[k := WithTime(e, Earlier(l.entries[k].at, e.at))] else l.entries + [e];
      var sorted := SortByTime(placed);
      if |sorted| > MAX_ENTRIES then List(sorted[1..], true) else List(sorted, l.omitted)
  }

  function ShowAll(l: List, events: seq<Entry>): List
    decreases |events|
  {
    if events == [] then l else ShowAll(OnShow(l, events[0]), events[1..])
  }

  // ---------- The entry list ----------

  predicate Ordered(s: seq<Entry>) { forall i, j :: 0 <= i < j < |s| ==> s[i].at <= s[j].at }

  predicate DistinctIds(s: seq<Entry>) { forall i, j :: 0 <= i < j < |s| ==> s[i].id != s[j].id }

  predicate ListFits(l: List) { |l.entries| <= MAX_ENTRIES && Ordered(l.entries) && DistinctIds(l.entries) }

  lemma {:induction false} InsertHolds(s: seq<Entry>, e: Entry)
    ensures |Insert(s, e)| == |s| + 1
    ensures forall x :: x in Insert(s, e) <==> x == e || x in s
    decreases |s|
  {
    if s != [] && s[|s| - 1].at > e.at {
      InsertHolds(s[..|s| - 1], e);
      assert s == s[..|s| - 1] + [s[|s| - 1]];
    }
  }

  lemma {:induction false} InsertOrders(s: seq<Entry>, e: Entry)
    requires Ordered(s)
    ensures Ordered(Insert(s, e))
    decreases |s|
  {
    if s != [] && s[|s| - 1].at > e.at {
      var init, last := s[..|s| - 1], s[|s| - 1];
      InsertOrders(init, e);
      InsertHolds(init, e);
      var r := Insert(init, e);
      forall i | 0 <= i < |r|
        ensures r[i].at <= last.at
      {
        assert r[i] in r;
      }
    }
  }

  lemma {:induction false} InsertDistinct(s: seq<Entry>, e: Entry)
    requires DistinctIds(s) && forall x :: x in s ==> x.id != e.id
    ensures DistinctIds(Insert(s, e))
    decreases |s|
  {
    if s != [] && s[|s| - 1].at > e.at {
      var init, last := s[..|s| - 1], s[|s| - 1];
      InsertDistinct(init, e);
      InsertHolds(init, e);
      var r := Insert(init, e);
      forall i | 0 <= i < |r|
        ensures r[i].id != last.id
      {
        assert r[i] in r;
        assert r[i] == e || r[i] in init;
      }
    }
  }

  lemma {:induction false} SortFits(s: seq<Entry>)
    requires DistinctIds(s)
    ensures Ordered(SortByTime(s)) && DistinctIds(SortByTime(s)) && |SortByTime(s)| == |s|
    ensures forall x :: x in SortByTime(s) <==> x in s
    decreases |s|
  {
    if s != [] {
      var init, last := s[..|s| - 1], s[|s| - 1];
      assert s == init + [last];
      SortFits(init);
      forall x | x in SortByTime(init)
        ensures x.id != last.id
      {
        var m :| 0 <= m < |init| && init[m] == x;
        assert s[m] == x;
      }
      InsertHolds(SortByTime(init), last);
      InsertOrders(SortByTime(init), last);
      InsertDistinct(SortByTime(init), last);
    }
  }

  /** The list before the oldest entry beyond the limit is dropped. */
  function Placed(l: List, e: Entry): seq<Entry> {
    var k := Find(l.entries, e.id);
    if k < |l.entries| then l.entries[k := WithTime(e, Earlier(l.entries[k].at, e.at))] else l.entries + [e]
  }

  lemma PlacedHolds(l: List, e: Entry, x: Entry)
    requires ListFits(l) && x in Placed(l, e)
    ensures DistinctIds(Placed(l, e))
    ensures if x.id == e.id then x == WithTime(e, x.at) else x in l.entries
  {
    var p := Placed(l, e);
    var k := Find(l.entries, e.id);
    var m :| 0 <= m < |p| && p[m] == x;
    if m < |l.entries| && m != k { assert p[m] == l.entries[m]; }
  }

  lemma ShowFits(l: List, e: Entry)
    requires ListFits(l)
    ensures ListFits(OnShow(l, e))
    ensures forall x :: x in OnShow(l, e).entries && x.id != e.id ==> x in l.entries
    ensures forall x :: x in OnShow(l, e).entries && x.id == e.id ==> x in l.entries || x == WithTime(e, x.at)
  {
    var t := OnShow(l, e);
    if t != l {
      var p := Placed(l, e);
      var k := Find(l.entries, e.id);
      assert p[k].id == e.id;
      PlacedHolds(l, e, p[k]);
      SortFits(p);
      forall x | x in t.entries
        ensures if x.id == e.id then x == WithTime(e, x.at) else x in l.entries
      {
        assert x in SortByTime(p);
        PlacedHolds(l, e, x);
      }
    }
  }

  /** A tool the list shows as finished. */
  predicate ShowsFinished(l: List, id: string) { exists e :: e in l.entries && e.id == id && FinishedTool(e) }

  predicate Shows(l: List, id: string) { exists e :: e in l.entries && e.id == id }

  predicate ShowsRunning(l: List, id: string) { exists e :: e in l.entries && e.id == id && e.Tool? && e.status == Running }

  lemma UniqueId(s: seq<Entry>, f: Entry)
    requires DistinctIds(s) && f in s
    ensures Find(s, f.id) < |s| && s[Find(s, f.id)] == f
    ensures forall x :: x in s && x.id == f.id ==> x == f
  {}

  lemma {:induction false} FindsNothing(s: seq<Entry>, id: string)
    requires forall x :: x in s ==> x.id != id
    ensures Find(s, id) == |s|
  {
    if s != [] { FindsNothing(s[1..], id); }
  }

  lemma {:induction false} SortedStays(s: seq<Entry>)
    requires Ordered(s)
    ensures SortByTime(s) == s
    decreases |s|
  {
    if s != [] {
      var init, last := s[..|s| - 1], s[|s| - 1];
      SortedStays(init);
      assert s == init + [last];
      assert init != [] ==> init[|init| - 1] == s[|s| - 2];
    }
  }

  /** Where a new entry goes in a list in time order: first only if it is older than the oldest,
      so that among equals it is the newest. */
  lemma {:induction false} InsertHead(s: seq<Entry>, e: Entry)
    requires Ordered(s) && s != []
    ensures Insert(s, e) == if e.at < s[0].at then [e] + s else [s[0]] + Insert(s, e)[1..]
    decreases |s|
  {
    var init, last := s[..|s| - 1], s[|s| - 1];
    if last.at > e.at && init != [] {
      InsertHead(init, e);
      assert s == init + [last];
    }
  }

  /** A list with a new entry before the limit is applied. */
  lemma NewEntryIsInserted(l: List, e: Entry)
    requires ListFits(l) && !Shows(l, e.id)
    ensures Find(l.entries, e.id) == |l.entries|
    ensures SortByTime(Placed(l, e)) == Insert(l.entries, e)
  {
    FindsNothing(l.entries, e.id);
    SortedStays(l.entries);
    assert (l.entries + [e])[..|l.entries|] == l.entries;
  }

  /** On a full list a new entry costs one: itself, if it is older than the oldest, and otherwise
      the oldest. */
  lemma NewEntryEvictsTheOldest(l: List, e: Entry)
    requires ListFits(l) && !Shows(l, e.id) && |l.entries| == MAX_ENTRIES
    ensures OnShow(l, e).omitted
    ensures OnShow(l, e).entries == if e.at < l.entries[0].at then l.entries else Insert(l.entries, e)[1..]
    ensures e.at < l.entries[0].at || !Shows(OnShow(l, e), l.entries[0].id)
  {
    NewEntryIsInserted(l, e);
    InsertHolds(l.entries, e);
    InsertHead(l.entries, e);
    assert ([e] + l.entries)[1..] == l.entries;
    var r := Insert(l.entries, e);
    InsertDistinct(l.entries, e);
    if e.at >= l.entries[0].at {
      assert r[0] == l.entries[0];
      assert forall i :: 0 <= i < |r[1..]| ==> r[1..][i] == r[i + 1];
    }
  }

  /** This event makes the list stop showing what it shows under this id. */
  predicate Evicts(l: List, e: Entry, id: string) {
    |l.entries| == MAX_ENTRIES && !Shows(l, e.id) && l.entries[0].id == id && l.entries[0].at <= e.at
  }

  /** Entries of other ids stay, all but an evicted one. */
  lemma OthersStay(l: List, e: Entry, x: Entry)
    requires ListFits(l) && x in l.entries && x.id != e.id
    ensures x in OnShow(l, e).entries <==> !Evicts(l, e, x.id)
    ensures Shows(OnShow(l, e), x.id) <==> !Evicts(l, e, x.id)
  {
    UniqueId(l.entries, x);
    ShowFits(l, e);
    if Shows(l, e.id) {
      var k := Find(l.entries, e.id);
      var f :| f in l.entries && f.id == e.id;
      UniqueId(l.entries, f);
      var p := Placed(l, e);
      assert p[Find(l.entries, x.id)] == x;
      PlacedHolds(l, e, x);
      SortFits(p);
    } else {
      NewEntryIsInserted(l, e);
      InsertHolds(l.entries, e);
      if |l.entries| == MAX_ENTRIES {
        NewEntryEvictsTheOldest(l, e);
        InsertHead(l.entries, e);
        if x != l.entries[0] && e.at >= l.entries[0].at {
          assert Insert(l.entries, e) == [l.entries[0]] + Insert(l.entries, e)[1..];
        }
      }
    }
  }

  /** Exactly when an entry under its own id is taken up: always, but for a start of a tool that is
      listed as finished, and for an entry older than a full list. */
  lemma OwnIsTaken(l: List, e: Entry)
    requires ListFits(l)
    ensures !Shows(l, e.id) ==>
      (e in OnShow(l, e).entries <==> |l.entries| < MAX_ENTRIES || l.entries[0].at <= e.at)
      && (Shows(OnShow(l, e), e.id) <==> |l.entries| < MAX_ENTRIES || l.entries[0].at <= e.at)
    ensures Shows(l, e.id) && !(ShowsFinished(l, e.id) && e.Tool? && e.status == Running) ==>
      exists x :: x in OnShow(l, e).entries && x == WithTime(e, x.at)
  {
    if Shows(l, e.id) {
      var f :| f in l.entries && f.id == e.id;
      UniqueId(l.entries, f);
      if !(FinishedTool(f) && e.Tool? && e.status == Running) {
        var k := Find(l.entries, e.id);
        var p := Placed(l, e);
        PlacedHolds(l, e, p[k]);
        SortFits(p);
        assert p[k] in OnShow(l, e).entries;
      }
    } else {
      NewEntryIsInserted(l, e);
      InsertHolds(l.entries, e);
      if |l.entries| == MAX_ENTRIES {
        NewEntryEvictsTheOldest(l, e);
        InsertHead(l.entries, e);
        if e.at >= l.entries[0].at {
          assert Insert(l.entries, e) == [l.entries[0]] + Insert(l.entries, e)[1..];
        }
      }
    }
  }

  /** What makes a list forget that a tool has finished: a commentary under its id, or eviction. */
  predicate Forgets(l: List, e: Entry, id: string) { (e.Commentary? && e.id == id) || Evicts(l, e, id) }

  /** One event leaves a finished tool finished, exactly unless it is forgotten; and it never
      makes it run. */
  lemma FinishedStays(l: List, e: Entry, id: string)
    requires ListFits(l) && ShowsFinished(l, id)
    ensures ListFits(OnShow(l, e)) && !ShowsRunning(OnShow(l, e), id)
    ensures ShowsFinished(OnShow(l, e), id) <==> !Forgets(l, e, id)
  {
    ShowFits(l, e);
    var f :| f in l.entries && f.id == id && FinishedTool(f);
    UniqueId(l.entries, f);
    if e.id == id { OwnIsTaken(l, e); } else { OthersStay(l, e, f); }
  }

  /** The list after each number of events shows the tool as finished. */
  predicate FinishedThroughout(l: List, events: seq<Entry>, id: string) {
    forall n :: 0 <= n <= |events| ==> ShowsFinished(ShowAll(l, events[..n]), id)
  }

  predicate NeverForgotten(l: List, events: seq<Entry>, id: string) {
    forall n :: 0 <= n < |events| ==> !Forgets(ShowAll(l, events[..n]), events[n], id)
  }

  lemma ShowOneFirst(l: List, events: seq<Entry>, n: nat)
    requires n < |events|
    ensures ShowAll(l, events[..n + 1]) == ShowAll(OnShow(l, events[0]), events[1..][..n])
  {
    assert events[..n + 1][1..] == events[1..][..n] && events[..n + 1][0] == events[0];
  }

  lemma FinishedFromTheSecond(l: List, events: seq<Entry>, id: string)
    requires events != [] && ShowsFinished(l, id)
    ensures FinishedThroughout(l, events, id) <==> FinishedThroughout(OnShow(l, events[0]), events[1..], id)
  {
    var t := OnShow(l, events[0]);
    if FinishedThroughout(l, events, id) {
      forall n | 0 <= n <= |events[1..]| ensures ShowsFinished(ShowAll(t, events[1..][..n]), id) { ShowOneFirst(l, events, n); }
    }
    if FinishedThroughout(t, events[1..], id) {
      forall n | 0 <= n <= |events| ensures ShowsFinished(ShowAll(l, events[..n]), id) {
        if n > 0 { ShowOneFirst(l, events, n - 1); }
      }
    }
  }

  lemma ForgottenFromTheSecond(l: List, events: seq<Entry>, id: string)
    requires events != [] && !Forgets(l, events[0], id)
    ensures NeverForgotten(l, events, id) <==> NeverForgotten(OnShow(l, events[0]), events[1..], id)
  {
    var t := OnShow(l, events[0]);
    if NeverForgotten(l, events, id) {
      forall n | 0 <= n < |events[1..]| ensures !Forgets(ShowAll(t, events[1..][..n]), events[1..][n], id) {
        ShowOneFirst(l, events, n);
        assert !Forgets(ShowAll(l, events[..n + 1]), events[n + 1], id);
      }
    }
    if NeverForgotten(t, events[1..], id) {
      forall n | 0 <= n < |events| ensures !Forgets(ShowAll(l, events[..n]), events[n], id) {
        if n > 0 {
          ShowOneFirst(l, events, n - 1);
          assert !Forgets(ShowAll(t, events[1..][..n - 1]), events[1..][n - 1], id);
        }
      }
    }
  }

  /** Late and repeated progress over any run: a finished tool is shown as finished throughout
      exactly when no event of the run makes the list forget it, and then it never runs. */
  lemma {:induction false} FinishedNeverRunsAgain(l: List, events: seq<Entry>, id: string)
    requires ListFits(l) && ShowsFinished(l, id)
    ensures FinishedThroughout(l, events, id) <==> NeverForgotten(l, events, id)
    ensures NeverForgotten(l, events, id) ==> !ShowsRunning(ShowAll(l, events), id)
    decreases |events|
  {
    if events == [] {
      var f :| f in l.entries && f.id == id && FinishedTool(f);
      UniqueId(l.entries, f);
    } else {
      FinishedStays(l, events[0], id);
      FinishedFromTheSecond(l, events, id);
      if Forgets(l, events[0], id) {
        assert !ShowsFinished(ShowAll(OnShow(l, events[0]), events[1..][..0]), id);
        assert Forgets(ShowAll(l, events[..0]), events[0], id);
      } else {
        ForgottenFromTheSecond(l, events, id);
        FinishedNeverRunsAgain(OnShow(l, events[0]), events[1..], id);
      }
    }
  }

  /** A start of a tool the list does not show is taken at its word, exactly if the list has room
      or the start is no older than the oldest entry. */
  lemma ForgottenToolRunsAgain(l: List, e: Entry)
    requires ListFits(l) && !Shows(l, e.id) && e.Tool? && e.status == Running
    ensures ShowsRunning(OnShow(l, e), e.id) <==> |l.entries| < MAX_ENTRIES || l.entries[0].at <= e.at
  {
    OwnIsTaken(l, e);
  }

  // ---------- When a finished tool runs again ----------

  lemma {:induction false} ShowAllAppends(l: List, events: seq<Entry>, e: Entry)
    ensures ShowAll(l, events + [e]) == OnShow(ShowAll(l, events), e)
    decreases |events|
  {
    if events == [] {
      assert ([] + [e])[1..] == [];
    } else {
      assert (events + [e])[1..] == events[1..] + [e];
      ShowAllAppends(OnShow(l, events[0]), events[1..], e);
    }
  }

  lemma {:induction false} ShowAllFits(l: List, events: seq<Entry>)
    requires ListFits(l)
    ensures ListFits(ShowAll(l, events))
    decreases |events|
  {
    if events != [] {
      ShowFits(l, events[0]);
      ShowAllFits(OnShow(l, events[0]), events[1..]);
    }
  }

  /** A start of this tool that makes it run: it is not listed as finished, and if it is not listed
      at all there is room for it or it is no older than the oldest entry. */
  predicate TakesStart(l: List, e: Entry, id: string) {
    && e.id == id && e.Tool? && e.status == Running && !ShowsFinished(l, id)
    && (Shows(l, id) || |l.entries| < MAX_ENTRIES || l.entries[0].at <= e.at)
  }

  /** Nothing but such a start makes a tool run that did not. */
  lemma StartIsTaken(l: List, e: Entry, id: string)
    requires ListFits(l)
    ensures TakesStart(l, e, id) ==> ShowsRunning(OnShow(l, e), id)
    ensures ShowsRunning(OnShow(l, e), id) ==> ShowsRunning(l, id) || TakesStart(l, e, id)
  {
    ShowFits(l, e);
    if e.id == id {
      OwnIsTaken(l, e);
      if TakesStart(l, e, id) && Shows(l, id) {
        var x :| x in OnShow(l, e).entries && x == WithTime(e, x.at);
        assert x.id == id && x.status == Running;
      }
    }
  }

  predicate RunningAt(l: List, events: seq<Entry>, n: int, id: string) {
    0 <= n <= |events| && ShowsRunning(ShowAll(l, events[..n]), id)
  }

  predicate StartTakenAt(l: List, events: seq<Entry>, n: int, id: string) {
    0 <= n < |events| && TakesStart(ShowAll(l, events[..n]), events[n], id)
  }

  lemma OneMoreEvent(l: List, events: seq<Entry>, n: nat)
    requires n < |events| && ListFits(l)
    ensures ListFits(ShowAll(l, events[..n]))
    ensures ShowAll(l, events[..n + 1]) == OnShow(ShowAll(l, events[..n]), events[n])
  {
    ShowAllFits(l, events[..n]);
    assert events[..n + 1] == events[..n] + [events[n]];
    ShowAllAppends(l, events[..n], events[n]);
  }

  lemma {:induction false} RunsFromAStart(l: List, events: seq<Entry>, n: nat, id: string) returns (m: nat)
    requires ListFits(l) && !ShowsRunning(l, id) && RunningAt(l, events, n, id)
    ensures m < n && StartTakenAt(l, events, m, id)
    decreases n
  {
    assert ShowAll(l, events[..0]) == l;
    OneMoreEvent(l, events, n - 1);
    StartIsTaken(ShowAll(l, events[..n - 1]), events[n - 1], id);
    if RunningAt(l, events, n - 1, id) { m := RunsFromAStart(l, events, n - 1, id); } else { m := n - 1; }
  }

  /** A start is taken only after the list has forgotten that the tool had finished. */
  lemma ForgottenBefore(l: List, events: seq<Entry>, n: nat, id: string)
    requires ListFits(l) && ShowsFinished(l, id) && StartTakenAt(l, events, n, id)
    ensures !NeverForgotten(l, events[..n], id)
  {
    FinishedNeverRunsAgain(l, events[..n], id);
    assert events[..n][..n] == events[..n];
  }

  /** Over every sequence of events, a finished tool is shown running again exactly if one of the
      events is a start that is taken: it was forgotten by an event before, and its start finds it
      listed otherwise, or room in the list, or no older entry than itself at its front. */
  lemma RunsAgainExactly(l: List, events: seq<Entry>, id: string)
    requires ListFits(l) && ShowsFinished(l, id)
    ensures (exists n :: RunningAt(l, events, n, id)) <==> (exists n :: StartTakenAt(l, events, n, id))
    ensures forall n: nat :: StartTakenAt(l, events, n, id) ==> !NeverForgotten(l, events[..n], id)
  {
    forall n: nat | StartTakenAt(l, events, n, id)
      ensures RunningAt(l, events, n + 1, id) && !NeverForgotten(l, events[..n], id)
    {
      OneMoreEvent(l, events, n);
      StartIsTaken(ShowAll(l, events[..n]), events[n], id);
      ForgottenBefore(l, events, n, id);
    }
    if n :| RunningAt(l, events, n, id) {
      var f :| f in l.entries && f.id == id && FinishedTool(f);
      UniqueId(l.entries, f);
      var m := RunsFromAStart(l, events, n, id);
    }
  }

  // ---------- A tool that is forgotten and runs again ----------

  /** A name for each number. */
  function Name(n: nat): string { seq(n, _ => 'x') }

  /** Entries of the names from 1 on, one per time from 2 on. */
  function Later(n: nat): seq<Entry> { seq(n, i requires 0 <= i < n => Commentary(Name(i + 1), i + 2)) }

  /** A new newest entry goes last, and costs a full list its first. */
  lemma AddedLast(l: List, e: Entry)
    requires ListFits(l) && l.entries != [] && l.entries[|l.entries| - 1].at <= e.at && !Shows(l, e.id)
    ensures OnShow(l, e) == if |l.entries| == MAX_ENTRIES then List(l.entries[1..] + [e], true) else List(l.entries + [e], l.omitted)
  {
    NewEntryIsInserted(l, e);
    assert (l.entries + [e])[1..] == l.entries[1..] + [e];
  }

  /** Entry i has name number first + i, and the time after that number. */
  predicate Numbered(s: seq<Entry>, first: nat) {
    forall i :: 0 <= i < |s| ==> |s[i].id| == first + i && s[i].at == first + i + 1
  }

  lemma NumberedTakesNext(l: List, e: Entry, first: nat)
    requires Numbered(l.entries, first) && 0 < |l.entries| <= MAX_ENTRIES && Numbered(l.entries + [e], first)
    ensures ListFits(l) && !Shows(l, e.id)
    ensures OnShow(l, e) == if |l.entries| == MAX_ENTRIES then List(l.entries[1..] + [e], true) else List(l.entries + [e], l.omitted)
  {
    var n := |l.entries|;
    assert (l.entries + [e])[n] == e;
    assert forall i :: 0 <= i < n ==> (l.entries + [e])[i] == l.entries[i];
    AddedLast(l, e);
  }

  lemma LaterGrows(tool: Entry, n: nat)
    requires n > 0 && Numbered([tool], 0)
    ensures Later(n) == Later(n - 1) + [Commentary(Name(n), n + 1)]
    ensures [tool] + Later(n) == ([tool] + Later(n - 1)) + [Commentary(Name(n), n + 1)]
    ensures Numbered([tool] + Later(n), 0) && Numbered([tool] + Later(n - 1), 0)
  {}

  lemma {:induction false} LaterAreListed(tool: Entry, n: nat)
    requires n < MAX_ENTRIES && Numbered([tool], 0)
    ensures ShowAll(List([tool], false), Later(n)) == List([tool] + Later(n), false)
  {
    if n == 0 {
      assert Later(0) == [] && [tool] + [] == [tool];
    } else {
      LaterAreListed(tool, n - 1);
      LaterGrows(tool, n);
      var e := Commentary(Name(n), n + 1);
      ShowAllAppends(List([tool], false), Later(n - 1), e);
      NumberedTakesNext(List([tool] + Later(n - 1), false), e, 0);
    }
  }

  /** With 24 newer entries the list no longer shows its first. */
  lemma LaterEvict(tool: Entry)
    requires Numbered([tool], 0)
    ensures ShowAll(List([tool], false), Later(MAX_ENTRIES)) == List(Later(MAX_ENTRIES), true)
  {
    var e := Commentary(Name(MAX_ENTRIES), MAX_ENTRIES + 1);
    LaterAreListed(tool, MAX_ENTRIES - 1);
    LaterGrows(tool, MAX_ENTRIES);
    var almost := [tool] + Later(MAX_ENTRIES - 1);
    ShowAllAppends(List([tool], false), Later(MAX_ENTRIES - 1), e);
    NumberedTakesNext(List(almost, false), e, 0);
    assert almost[1..] == Later(MAX_ENTRIES - 1);
  }

  /** The limit of 24 is real: a tool finishes, 24 newer entries follow, and when its start
      arrives once more it is shown as running, though not if it is older than they are. */
  lemma EvictedToolRunsAgain(tool: Entry)
    requires tool == Tool(Name(0), Completed, 1)
    ensures var l := List([tool], false);
      var full := ShowAll(l, Later(MAX_ENTRIES));
      && ShowsFinished(l, tool.id) && ListFits(full) && !Shows(full, tool.id)
      && ShowsRunning(OnShow(full, tool.(status := Running, at := MAX_ENTRIES + 2)), tool.id)
      && !ShowsRunning(OnShow(full, tool.(status := Running)), tool.id)
  {
    assert tool in List([tool], false).entries;
    LaterEvict(tool);
    var full := List(Later(MAX_ENTRIES), true);
    assert Numbered(full.entries, 1);
    ForgottenToolRunsAgain(full, tool.(status := Running, at := MAX_ENTRIES + 2));
    ForgottenToolRunsAgain(full, tool.(status := Running));
  }

  // ---------- One request in flight ----------

  datatype Status = Live | Retrying | Terminal(name: string)

  /** How a card is closed: with an answer, to wait for a retry, or silently. */
  datatype Close = Finish(status: string) | Pause | Silent

  /** What the closing call is doing; `Sending` is its first request, `Last` the one that closes
      a card whose answer goes out as an ordinary message. */
  datatype Closing = Open | Waiting(kind: Close) | Sending(kind: Close) | Last(kind: Close) | Done(kind: Close)

  datatype Card = Card(list: List, status: Status, messageId: bool, fallback: bool, closed: bool,
                       inFlight: bool, dirty: bool, failures: nat, closing: Closing, creates: nat)

  datatype Action =
    | Push(event: Event)
    | Tick
    | Settled(ok: bool)
    | Stop
    | BeginClose(kind: Close)
    | ChainSettled
    | CloseSettled(ok: bool)

  function OnEvent(c: Card, e: Event): Card {
    if c.closed || c.fallback then c
    else
      match e
      case Started => c.(status := Live, dirty := true)
      case Show(entry) => c.(list := OnShow(c.list, entry), dirty := true)
  }

  /** A request goes out: a create while the card has no message yet, a patch after that. */
  function Send(c: Card): Card { if c.messageId then c else c.(creates := c.creates + 1) }

  function OnEnqueue(c: Card): Card {
    if c.inFlight || c.closed || c.fallback then c else Send(c.(dirty := false, inFlight := true))
  }

  function OnSettled(c: Card, ok: bool): Card {
    if !c.inFlight then c
    else if ok then c.(inFlight := false, messageId := true)
    else c.(inFlight := false, failures := c.failures + 1, fallback := c.fallback || c.failures + 1 >= 3 || !c.messageId)
  }

  /** `stop` alone, before or without a closing call; the observer calls it as well. */
  function OnStop(c: Card): Card { c.(closed := true) }

  function OnBeginClose(c: Card, kind: Close): Card { if c.closing.Open? then c.(closed := true, closing := Waiting(kind)) else c }

  /** Tools still shown as running end with the card. */
  function CloseTools(entries: seq<Entry>, status: ToolStatus): seq<Entry> {
    seq(|entries|, i requires 0 <= i < |entries| =>
      if entries[i].Tool? && entries[i].status == Running then entries[i].(status := status) else entries[i])
  }

  /** The chain has settled; the closing call goes on alone. */
  function OnChainSettled(c: Card): Card {
    if !c.closing.Waiting? || c.inFlight then c
    else
      match c.closing.kind
      case Finish(status) =>
        var ended := if status == "completed" then Completed else Interrupted;
        var d := c.(status := Terminal(status), list := c.list.(entries := CloseTools(c.list.entries, ended)));
        if !c.fallback then Send(d.(closing := Sending(c.closing.kind)))
        else d.(closing := if c.messageId then Last(c.closing.kind) else Done(c.closing.kind))
      case Pause =>
        if c.messageId then Send(c.(status := Retrying, closing := Sending(Pause)))
        else c.(status := Retrying, closing := Done(Pause))
      case Silent =>
        if c.messageId then
          Send(c.(status := Terminal("completed"), fallback := false, closing := Sending(Silent),
                  list := c.list.(entries := CloseTools(c.list.entries, Completed))))
        else c.(closing := Done(Silent))
  }

  function OnCloseSettled(c: Card, ok: bool): Card {
    match c.closing
    case Sending(kind) =>
      if ok then c.(messageId := true, closing := Done(kind))
      else if kind.Finish? then c.(fallback := true, closing := if c.messageId then Last(kind) else Done(kind))
      else c.(closing := Done(kind))
    case Last(kind) => c.(closing := Done(kind))
    case _ => c
  }

  function Step(c: Card, a: Action): Card {
    match a
    case Push(e) => OnEvent(c, e)
    case Tick => OnEnqueue(c)
    case Settled(ok) => OnSettled(c, ok)
    case Stop => OnStop(c)
    case BeginClose(kind) => OnBeginClose(c, kind)
    case ChainSettled => OnChainSettled(c)
    case CloseSettled(ok) => OnCloseSettled(c, ok)
  }

  function Run(c: Card, actions: seq<Action>): Card
    decreases |actions|
  {
    if actions == [] then c else Run(Step(c, actions[0]), actions[1..])
  }

  /** A new card, or one restored with the message it had. */
  predicate Initial(c: Card) {
    && ListFits(c.list) && !c.closed && !c.inFlight && c.failures == 0 && c.closing.Open? && c.creates == 0
  }

  function InFlight(c: Card): nat { (if c.inFlight then 1 else 0) + (if c.closing.Sending? || c.closing.Last? then 1 else 0) }

  /** A finishing call has gone as far as its first request, or done without one. */
  predicate FinishSent(c: Card) { (c.closing.Sending? || c.closing.Last? || c.closing.Done?) && c.closing.kind.Finish? }

  predicate CardFits(c: Card) {
    && ListFits(c.list)
    && InFlight(c) <= 1
    && (!c.closing.Open? ==> c.closed)
    && c.creates <= 1
    && (c.creates == 1 ==> c.messageId || c.fallback || InFlight(c) == 1 || c.closing.Done?)
    && (c.closing.Last? ==> c.messageId)
    && (FinishSent(c) ==> c.status == Terminal(c.closing.kind.status) && forall e :: e in c.list.entries ==> !(e.Tool? && e.status == Running))
    && (c.closing.Sending? && !c.closing.kind.Finish? ==> c.messageId)
  }

  lemma CloseToolsFits(s: seq<Entry>, status: ToolStatus)
    requires Ordered(s) && DistinctIds(s)
    ensures Ordered(CloseTools(s, status)) && DistinctIds(CloseTools(s, status))
  {
    var r := CloseTools(s, status);
    assert forall i :: 0 <= i < |r| ==> r[i].at == s[i].at && r[i].id == s[i].id;
  }

  lemma StepFits(c: Card, a: Action)
    requires CardFits(c)
    ensures CardFits(Step(c, a))
  {
    if a.Push? && a.event.Show? { ShowFits(c.list, a.event.entry); }
    CloseToolsFits(c.list.entries, Completed);
    CloseToolsFits(c.list.entries, Interrupted);
  }

  lemma {:induction false} RunFits(c: Card, actions: seq<Action>)
    requires CardFits(c)
    ensures CardFits(Run(c, actions))
    decreases |actions|
  {
    if actions != [] {
      StepFits(c, actions[0]);
      RunFits(Step(c, actions[0]), actions[1..]);
    }
  }

  /** Whatever is pushed, however slow and broken the platform is and whenever the card is
      closed: at most one request is in flight, at most one create is ever sent, the list stays
      bounded, in time order and without repeated ids. */
  lemma OneRequestInFlight(c: Card, actions: seq<Action>)
    requires Initial(c)
    ensures var d := Run(c, actions);
      InFlight(d) <= 1 && d.creates <= 1 && |d.list.entries| <= 24 && Ordered(d.list.entries) && DistinctIds(d.list.entries)
  {
    RunFits(c, actions);
  }

  /** A finished card is final. From the moment a finishing call has sent its first request, on
      every run and whatever still arrives, the card keeps the status it was finished with and
      its entries, none of them a running tool, and sends no further create. */
  lemma FinishedCardIsFinal(c: Card, before: seq<Action>, after: seq<Action>)
    requires Initial(c) && FinishSent(Run(c, before))
    ensures var d := Run(c, before);
      var f := Run(d, after);
      && f.status == d.status == Terminal(d.closing.kind.status)
      && f.list == d.list && (forall e :: e in f.list.entries ==> !(e.Tool? && e.status == Running))
      && f.creates == d.creates
  {
    RunFits(c, before);
    SentIsFinal(Run(c, before), after);
  }

  lemma {:induction false} SentIsFinal(c: Card, actions: seq<Action>)
    requires CardFits(c) && FinishSent(c)
    ensures var d := Run(c, actions); d.status == c.status && d.list == c.list && d.creates == c.creates
    decreases |actions|
  {
    if actions != [] {
      StepFits(c, actions[0]);
      SentIsFinal(Step(c, actions[0]), actions[1..]);
    }
  }

  /** A card that was stopped takes up no progress and sends nothing, unless and until a closing
      call begins. */
  lemma {:induction false} StoppedCardIsSilent(c: Card, actions: seq<Action>)
    requires c.closed && c.closing.Open? && forall i :: 0 <= i < |actions| ==> !actions[i].BeginClose?
    ensures var d := Run(c, actions); d.status == c.status && d.list == c.list && d.creates == c.creates
    ensures InFlight(Run(c, actions)) <= InFlight(c)
    decreases |actions|
  {
    if actions != [] {
      assert !actions[0].BeginClose?;
      StoppedCardIsSilent(Step(c, actions[0]), actions[1..]);
    }
  }

  // ---------- The card's fields ----------

  class ExecutionCard {
    var list: List
    var status: Status
    var messageId: bool
    var fallback: bool
    var closed: bool
    var inFlight: bool
    var dirty: bool
    var failures: nat
    var closing: Closing
    ghost var creates: nat

    ghost function Value(): Card
      reads this
    {
      Card(list, status, messageId, fallback, closed, inFlight, dirty, failures, closing, creates)
    }

    constructor (saved: List, messageId: bool, fallback: bool)
      ensures Value() == Card(saved, Live, messageId, fallback, false, false, false, 0, Open, 0)
    {
      list, status, this.messageId, this.fallback := saved, Live, messageId, fallback;
      closed, inFlight, dirty, failures, closing, creates := false, false, false, 0, Open, 0;
    }

    method PushEvent(e: Event)
      modifies this
      ensures Value() == OnEvent(old(Value()), e)
    {
      if closed || fallback { return; }
      match e {
        case Started => status := Live;
        case Show(entry) => list := OnShow(list, entry);
      }
      dirty := true;
    }

    method Enqueue() returns (sent: bool)
      modifies this
      ensures Value() == OnEnqueue(old(Value()))
      ensures sent <==> !old(inFlight) && !old(closed) && !old(fallback)
    {
      if inFlight || closed || fallback { return false; }
      dirty, inFlight := false, true;
      creates := if messageId then creates else creates + 1;
      return true;
    }

    method UpdateSettled(ok: bool)
      requires inFlight
      modifies this
      ensures Value() == OnSettled(old(Value()), ok)
    {
      inFlight := false;
      if ok { messageId := true; return; }
      failures := failures + 1;
      if failures >= 3 || !messageId { fallback := true; }
    }
  }
}
