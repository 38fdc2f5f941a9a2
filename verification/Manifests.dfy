/** Source-version claims (src/channels/feishu/outbound-media.mjs, `prepare`, `usage`,
    `releaseRun`).

    A run's published manifest is both its frozen result and its claim on the file versions it
    took. The agent may change its files at any time, so everything a scan reads is an input;
    a hash stands for its content. One spool serves one chat's directory. */
module Manifests {
  import opened Prelude

  type Bytes = seq<bv8>

  datatype Stat = Stat(ino: nat, size: nat, mtime: int)

  datatype Version = Version(name: string, stat: Stat, content: Bytes)

  /** `readBounded`: bytes with the stat fields they were read under, or a refusal. */
  datatype Read = Bytes(content: Bytes, stat: Stat) | Refused(code: string)

  /** One directory entry as a scan meets it: `listed` when it is a regular file with a valid
      name, `compared` and `taken` what reading it gives at the two moments it is read. */
  datatype Entry = Entry(name: string, listed: bool, stat: Option<Stat>, compared: Read, taken: Read)

  datatype Failure = Failure(name: string, code: string)

  datatype Manifest = Manifest(artifacts: seq<Version>, failures: seq<Failure>, omitted: nat)

  /** A spooled copy; its file name is a digest of run, name and content. */
  datatype Copy = Copy(run: string, name: string, content: Bytes)

  /** What survives a crash. A copy is `true` once it is completely written. */
  datatype State = State(manifests: map<string, Manifest>, copies: map<Copy, bool>)

  datatype Limits = Limits(maxTotalBytes: nat, rank: string -> int)

  const KEPT: nat := 9
  const RESERVE: nat := 65536
  const MAX_ENTRIES: nat := 4096

  // ---------- Claims ----------

  predicate Claims(m: Manifest, v: Version) { v in m.artifacts }

  predicate Claimed(s: State, v: Version) { exists r :: r in s.manifests && Claims(s.manifests[r], v) }

  /** Some claim has these stat fields. */
  predicate StatClaimed(s: State, name: string, stat: Stat) {
    exists r, k :: r in s.manifests && 0 <= k < |s.manifests[r].artifacts|
      && s.manifests[r].artifacts[k].name == name && s.manifests[r].artifacts[k].stat == stat
  }

  // ---------- The scan ----------

  /** Whether the scan skips an entry, takes it as a candidate, or gives up. */
  datatype Verdict = Skip | Take(bytes: nat) | GiveUp

  function Judge(s: State, since: int, e: Entry): Verdict {
    if !e.listed then Skip
    else if e.stat.None? then GiveUp
    else if e.stat.value.mtime < since - 1000 then Skip
    else if !StatClaimed(s, e.name, e.stat.value) then Take(0)
    else if e.compared.Refused? then GiveUp
    else if Claimed(s, Version(e.name, e.compared.stat, e.compared.content)) then Skip
    else Take(|e.compared.content|)
  }

  /** The entry is new to this spool: recent enough, and not a version some manifest claims. */
  predicate Eligible(s: State, since: int, e: Entry) {
    && e.listed && e.stat.Some? && since - 1000 <= e.stat.value.mtime
    && (StatClaimed(s, e.name, e.stat.value) ==>
      e.compared.Bytes? && !Claimed(s, Version(e.name, e.compared.stat, e.compared.content)))
  }

  function Candidates(s: State, since: int, listing: seq<Entry>): seq<Entry> {
    if listing == [] then []
    else (if Judge(s, since, listing[0]).Take? then [listing[0]] else []) + Candidates(s, since, listing[1..])
  }

  lemma NoneFoundYet(s: State, since: int, listing: seq<Entry>)
    ensures Candidates(s, since, listing) == [] + Candidates(s, since, listing[0..])
  {
    assert listing[0..] == listing;
  }

  lemma FindsNext(s: State, since: int, listing: seq<Entry>, i: nat, found: seq<Entry>)
    requires i < |listing|
    ensures found + Candidates(s, since, listing[i..])
      == (if Judge(s, since, listing[i]).Take? then found + [listing[i]] else found) + Candidates(s, since, listing[i + 1..])
  {
    assert listing[i..][1..] == listing[i + 1..];
  }

  predicate ScanFails(s: State, since: int, listing: seq<Entry>) {
    |listing| > MAX_ENTRIES || exists i :: 0 <= i < |listing| && Judge(s, since, listing[i]).GiveUp?
  }

  // ---------- Newest nine ----------

  function TimeOf(e: Entry): int { if e.stat.Some? then e.stat.value.mtime else 0 }

  /** The sort's comparison: by time, then by the collation of the name. */
  predicate NotAfter(l: Limits, a: Entry, b: Entry) {
    TimeOf(a) < TimeOf(b) || (TimeOf(a) == TimeOf(b) && l.rank(a.name) <= l.rank(b.name))
  }

  function Insert(l: Limits, s: seq<Entry>, e: Entry): seq<Entry> {
    if s == [] || NotAfter(l, s[|s| - 1], e) then s + [e] else Insert(l, s[..|s| - 1], e) + [s[|s| - 1]]
  }

  function SortByTime(l: Limits, s: seq<Entry>): seq<Entry> {
    if s == [] then [] else Insert(l, SortByTime(l, s[..|s| - 1]), s[|s| - 1])
  }

  predicate Ordered(l: Limits, s: seq<Entry>) { forall i, j :: 0 <= i < j < |s| ==> NotAfter(l, s[i], s[j]) }

  predicate AllNotAfter(l: Limits, s: seq<Entry>, last: Entry) { forall x :: x in multiset(s) ==> NotAfter(l, x, last) }

  lemma OrderOfAppend(l: Limits, s: seq<Entry>, last: Entry)
    requires Ordered(l, s) && AllNotAfter(l, s, last)
    ensures Ordered(l, s + [last])
  {
    assert forall i :: 0 <= i < |s| ==> s[i] in multiset(s);
  }

  lemma OrderOfPrefix(l: Limits, s: seq<Entry>)
    requires Ordered(l, s) && s != []
    ensures Ordered(l, s[..|s| - 1]) && AllNotAfter(l, s[..|s| - 1], s[|s| - 1])
    ensures multiset(s) == multiset(s[..|s| - 1]) + multiset{s[|s| - 1]}
  {
    assert s == s[..|s| - 1] + [s[|s| - 1]];
  }

  lemma {:induction false} InsertKeepsOrder(l: Limits, s: seq<Entry>, e: Entry)
    requires Ordered(l, s)
    ensures Ordered(l, Insert(l, s, e))
    ensures multiset(Insert(l, s, e)) == multiset(s) + multiset{e}
    decreases |s|
  {
    if s != [] && !NotAfter(l, s[|s| - 1], e) {
      var init, last := s[..|s| - 1], s[|s| - 1];
      OrderOfPrefix(l, s);
      InsertKeepsOrder(l, init, e);
      OrderOfAppend(l, Insert(l, init, e), last);
    }
  }

  lemma {:induction false} SortIsOrdered(l: Limits, s: seq<Entry>)
    ensures Ordered(l, SortByTime(l, s)) && multiset(SortByTime(l, s)) == multiset(s)
    ensures |SortByTime(l, s)| == |s|
    decreases |s|
  {
    if s != [] {
      SortIsOrdered(l, s[..|s| - 1]);
      InsertKeepsOrder(l, SortByTime(l, s[..|s| - 1]), s[|s| - 1]);
      assert s == s[..|s| - 1] + [s[|s| - 1]];
    }
    SameCount(SortByTime(l, s), s);
  }

  lemma SameCount(a: seq<Entry>, b: seq<Entry>)
    requires multiset(a) == multiset(b)
    ensures |a| == |b|
  {
    assert |a| == |multiset(a)| == |multiset(b)| == |b|;
  }

  function Omitted(n: nat): nat { if n > KEPT then n - KEPT else 0 }

  function Selected(l: Limits, candidates: seq<Entry>): seq<Entry> {
    var sorted := SortByTime(l, candidates);
    if Omitted(|candidates|) <= |sorted| then sorted[Omitted(|candidates|)..] else sorted
  }

  // ---------- Snapshots ----------

  /** The manifest built so far and the copies written for it. */
  datatype Draft = Draft(artifacts: seq<Version>, failures: seq<Failure>, copies: map<Copy, bool>, used: nat)

  function CodeOf(code: string): string {
    if code in {"artifact_too_large", "artifact_storage_full", "artifact_changed", "unsafe_artifact_file"} then code
    else "artifact_snapshot_failed"
  }

  /** One selected file: re-read, checked against the claims again, and copied. */
  function TakeOne(l: Limits, s: State, run: string, d: Draft, e: Entry): Draft {
    if e.taken.Refused? then d.(failures := d.failures + [Failure(e.name, CodeOf(e.taken.code))])
    else
      var v := Version(e.name, e.taken.stat, e.taken.content);
      var copy := Copy(run, e.name, e.taken.content);
      if Claimed(s, v) then d
      else if d.used + |v.content| + RESERVE > l.maxTotalBytes then
        d.(failures := d.failures + [Failure(e.name, "artifact_storage_full")])
      else if copy in d.copies && !d.copies[copy] then
        d.(failures := d.failures + [Failure(e.name, "artifact_snapshot_failed")])
      else
        d.(artifacts := d.artifacts + [v], copies := d.copies[copy := true],
           used := if copy in d.copies then d.used else d.used + |v.content|)
  }

  function TakeAll(l: Limits, s: State, run: string, d: Draft, selected: seq<Entry>): Draft
    decreases |selected|
  {
    if selected == [] then d else TakeAll(l, s, run, TakeOne(l, s, run, d, selected[0]), selected[1..])
  }

  /** What one whole undisturbed `prepare` publishes. */
  function Prepared(l: Limits, s: State, run: string, since: int, listing: seq<Entry>, used: nat): Draft {
    TakeAll(l, s, run, Draft([], [], s.copies, used), Selected(l, Candidates(s, since, listing)))
  }

  function ManifestOf(d: Draft, candidates: nat): Manifest { Manifest(d.artifacts, d.failures, Omitted(candidates)) }

  // ---------- Operations over every run ----------

  /** Where a `prepare` breaks off: during the scan, after some copies with the next one half
      written, or not at all. */
  datatype Fault = NoFault | InScan | AfterCopies(done: nat, torn: bool)

  datatype Action =
    | Prepare(run: string, since: int, listing: seq<Entry>, used: nat, fault: Fault)
    | Discard(copy: Copy)
    | Release(run: string, live: map<string, Version>, quarantined: bool, finished: bool)

  function OnPrepare(l: Limits, s: State, run: string, since: int, listing: seq<Entry>, used: nat, fault: Fault): State {
    if run in s.manifests || fault == InScan || ScanFails(s, since, listing) then s
    else
      var candidates := Candidates(s, since, listing);
      var selected := Selected(l, candidates);
      match fault
      case NoFault =>
        var d := Prepared(l, s, run, since, listing, used);
        State(s.manifests[run := ManifestOf(d, |candidates|)], d.copies)
      case AfterCopies(done, torn) =>
        if done >= |selected| then
          s.(copies := Prepared(l, s, run, since, listing, used).copies)
        else
          var d := TakeAll(l, s, run, Draft([], [], s.copies, used), selected[..done]);
          s.(copies := if torn then Tear(l, s, run, d, selected[done]) else d.copies)
      case InScan => s
  }

  /** A crash in the middle of writing a copy, if this entry gets one; an existing file is opened
      exclusively, so it is never overwritten. An empty copy is complete when it is created. */
  function Tear(l: Limits, s: State, run: string, d: Draft, e: Entry): map<Copy, bool> {
    if TakeOne(l, s, run, d, e).copies == d.copies || e.taken.Refused? then d.copies
    else d.copies[Copy(run, e.name, e.taken.content) := e.taken.content == []]
  }

  /** Some version the manifest claims is what stands at its path now. */
  predicate StillCurrent(m: Manifest, live: map<string, Version>) {
    exists k :: 0 <= k < |m.artifacts| && m.artifacts[k].name in live && live[m.artifacts[k].name] == m.artifacts[k]
  }

  /** Copies go first and the manifest last; a crash between leaves the manifest. */
  function OnRelease(s: State, run: string, live: map<string, Version>, quarantined: bool, finished: bool): State {
    if quarantined || (run in s.manifests && StillCurrent(s.manifests[run], live)) then s
    else
      var kept := map c | c in s.copies && c.run != run :: s.copies[c];
      State(if finished then s.manifests - {run} else s.manifests, kept)
  }

  function Step(l: Limits, s: State, a: Action): State {
    match a
    case Prepare(run, since, listing, used, fault) => OnPrepare(l, s, run, since, listing, used, fault)
    case Discard(copy) => s.(copies := s.copies - {copy})
    case Release(run, live, quarantined, finished) => OnRelease(s, run, live, quarantined, finished)
  }

  function Run(l: Limits, s: State, actions: seq<Action>): State
    decreases |actions|
  {
    if actions == [] then s else Run(l, Step(l, s, actions[0]), actions[1..])
  }

  /** A directory lists each name once. */
  predicate DistinctNames(listing: seq<Entry>) {
    forall i, j :: 0 <= i < j < |listing| ==> listing[i].name != listing[j].name
  }

  predicate Listings(actions: seq<Action>) {
    forall k :: 0 <= k < |actions| && actions[k].Prepare? ==> DistinctNames(actions[k].listing)
  }

  // ---------- Selection ----------

  lemma {:induction false} CandidatesAre(s: State, since: int, listing: seq<Entry>)
    requires forall i :: 0 <= i < |listing| ==> !Judge(s, since, listing[i]).GiveUp?
    ensures forall e :: e in Candidates(s, since, listing) <==> e in listing && Eligible(s, since, e)
    ensures DistinctNames(listing) ==> DistinctNames(Candidates(s, since, listing))
    decreases |listing|
  {
    if listing != [] {
      var rest := listing[1..];
      forall i | 0 <= i < |rest| ensures !Judge(s, since, rest[i]).GiveUp? { assert rest[i] == listing[i + 1]; }
      CandidatesAreRest(s, since, listing);
      assert listing[0] == listing[0];
      assert forall e :: e in listing <==> e == listing[0] || e in rest;
      if DistinctNames(listing) {
        var c := Candidates(s, since, rest);
        forall k | 0 <= k < |c|
          ensures c[k].name != listing[0].name
        {
          assert c[k] in c;
          var m :| 0 <= m < |rest| && rest[m] == c[k];
          assert rest[m] == listing[m + 1];
        }
      }
    }
  }

  lemma {:induction false} CandidatesAreRest(s: State, since: int, listing: seq<Entry>)
    requires listing != []
    requires forall i :: 0 <= i < |listing| ==> !Judge(s, since, listing[i]).GiveUp?
    ensures var rest := listing[1..];
      && (forall e :: e in Candidates(s, since, rest) <==> e in rest && Eligible(s, since, e))
      && (DistinctNames(listing) ==> DistinctNames(rest) && DistinctNames(Candidates(s, since, rest)))
    decreases |listing|, 0
  {
    var rest := listing[1..];
    forall i | 0 <= i < |rest| ensures !Judge(s, since, rest[i]).GiveUp? { assert rest[i] == listing[i + 1]; }
    if DistinctNames(listing) {
      forall i, j | 0 <= i < j < |rest| ensures rest[i].name != rest[j].name {
        assert rest[i] == listing[i + 1] && rest[j] == listing[j + 1];
      }
    }
    if rest != [] { CandidatesAre(s, since, rest); }
  }

  lemma NamesOfAppend(s: seq<Entry>, last: Entry)
    requires DistinctNames(s) && forall x :: x in s ==> x.name != last.name
    ensures DistinctNames(s + [last])
  {
    forall i, j | 0 <= i < j < |s + [last]|
      ensures (s + [last])[i].name != (s + [last])[j].name
    {
      assert s[i] in s;
    }
  }

  lemma NamesOfPrefix(s: seq<Entry>)
    requires DistinctNames(s) && s != []
    ensures DistinctNames(s[..|s| - 1]) && forall x :: x in s[..|s| - 1] ==> x in s && x.name != s[|s| - 1].name
  {}

  lemma {:induction false} InsertKeepsNames(l: Limits, s: seq<Entry>, e: Entry)
    requires DistinctNames(s) && forall x :: x in s ==> x.name != e.name
    ensures DistinctNames(Insert(l, s, e))
    decreases |s|
  {
    if s == [] || NotAfter(l, s[|s| - 1], e) {
      NamesOfAppend(s, e);
    } else {
      var init, last := s[..|s| - 1], s[|s| - 1];
      NamesOfPrefix(s);
      InsertKeepsNames(l, init, e);
      InsertHolds(l, init, e);
      NamesOfAppend(Insert(l, init, e), last);
    }
  }

  lemma {:induction false} InsertHolds(l: Limits, s: seq<Entry>, e: Entry)
    ensures forall x :: x in Insert(l, s, e) <==> x == e || x in s
    decreases |s|
  {
    if s != [] && !NotAfter(l, s[|s| - 1], e) {
      InsertHolds(l, s[..|s| - 1], e);
      assert s == s[..|s| - 1] + [s[|s| - 1]];
    }
  }

  lemma {:induction false} SortKeepsNames(l: Limits, s: seq<Entry>)
    requires DistinctNames(s)
    ensures DistinctNames(SortByTime(l, s))
    ensures forall x :: x in SortByTime(l, s) <==> x in s
    decreases |s|
  {
    if s != [] {
      var init, last := s[..|s| - 1], s[|s| - 1];
      assert s == init + [last];
      SortKeepsNames(l, init);
      forall x | x in SortByTime(l, init)
        ensures x.name != last.name
      {
        var m :| 0 <= m < |init| && init[m] == x;
        assert s[m] == x;
      }
      InsertKeepsNames(l, SortByTime(l, init), last);
      InsertHolds(l, SortByTime(l, init), last);
    }
  }

  /** A scan that does not give up offers exactly the eligible entries, and the manifest is made
      from the newest nine of them in time order: nothing left out is newer than anything taken,
      and `omitted` counts the rest. */
  lemma NewestNine(l: Limits, s: State, since: int, listing: seq<Entry>)
    requires !ScanFails(s, since, listing) && DistinctNames(listing)
    ensures var c := Candidates(s, since, listing);
      var sorted := SortByTime(l, c);
      && (forall e :: e in c <==> e in listing && Eligible(s, since, e))
      && multiset(sorted) == multiset(c) && Omitted(|c|) <= |sorted|
      && sorted == sorted[..Omitted(|c|)] + Selected(l, c)
      && |Selected(l, c)| == Min(|c|, 9) && |c| == Omitted(|c|) + |Selected(l, c)|
      && Ordered(l, Selected(l, c)) && DistinctNames(Selected(l, c))
      && (forall a, b :: a in sorted[..Omitted(|c|)] && b in Selected(l, c) ==> NotAfter(l, a, b))
  {
    CandidatesAre(s, since, listing);
    var c := Candidates(s, since, listing);
    SortIsOrdered(l, c);
    SortKeepsNames(l, c);
  }

  // ---------- Snapshots ----------

  /** What the draft of a run has made sure of. */
  predicate DraftFits(s: State, run: string, d: Draft) {
    && (forall k :: 0 <= k < |d.artifacts| ==> !Claimed(s, d.artifacts[k]))
    && (forall k :: 0 <= k < |d.artifacts| ==>
      var copy := Copy(run, d.artifacts[k].name, d.artifacts[k].content); copy in d.copies && d.copies[copy])
    && (forall j, k :: 0 <= j < k < |d.artifacts| ==> d.artifacts[j].name != d.artifacts[k].name)
  }

  /** Only this run's copies are added, and no existing copy changes. */
  predicate CopiesGrow(run: string, before: map<Copy, bool>, after: map<Copy, bool>) {
    && (forall c :: c in before ==> c in after && after[c] == before[c])
    && (forall c :: c in after && c !in before ==> c.run == run)
  }

  lemma {:induction false} TakeAllFits(l: Limits, s: State, run: string, d: Draft, selected: seq<Entry>)
    requires DraftFits(s, run, d) && DistinctNames(selected)
    requires forall k, e :: 0 <= k < |d.artifacts| && e in selected ==> d.artifacts[k].name != e.name
    ensures DraftFits(s, run, TakeAll(l, s, run, d, selected))
    ensures CopiesGrow(run, d.copies, TakeAll(l, s, run, d, selected).copies)
    decreases |selected|
  {
    if selected != [] {
      var t := TakeOne(l, s, run, d, selected[0]);
      assert selected[0] in selected;
      forall e | e in selected[1..]
        ensures e in selected && e.name != selected[0].name
      {
        var m :| 0 <= m < |selected[1..]| && selected[1..][m] == e;
        assert selected[m + 1] == e;
      }
      assert DraftFits(s, run, t);
      TakeAllFits(l, s, run, t, selected[1..]);
    }
  }

  // ---------- Claims over every run ----------

  /** No version is claimed twice, in one manifest or in two; and a copy of an artifact that a
      manifest names is complete, for as long as it is there. */
  predicate ManifestFits(s: State, r: string)
    requires r in s.manifests
  {
    var m := s.manifests[r];
    && (forall j, k :: 0 <= j < k < |m.artifacts| ==> m.artifacts[j].name != m.artifacts[k].name)
    && (forall k :: 0 <= k < |m.artifacts| ==>
      var copy := Copy(r, m.artifacts[k].name, m.artifacts[k].content); copy in s.copies ==> s.copies[copy])
  }

  predicate Apart(s: State, r: string, q: string)
    requires r in s.manifests && q in s.manifests
  {
    r != q ==> forall v :: v in s.manifests[r].artifacts ==> v !in s.manifests[q].artifacts
  }

  predicate Inv(s: State) {
    && (forall r :: r in s.manifests ==> ManifestFits(s, r))
    && (forall r, q :: r in s.manifests && q in s.manifests ==> Apart(s, r, q))
  }

  lemma PublishKeepsInv(s: State, run: string, d: Draft, omitted: nat)
    requires Inv(s) && run !in s.manifests && DraftFits(s, run, d) && CopiesGrow(run, s.copies, d.copies)
    ensures Inv(State(s.manifests[run := Manifest(d.artifacts, d.failures, omitted)], d.copies))
  {
    var t := State(s.manifests[run := Manifest(d.artifacts, d.failures, omitted)], d.copies);
    forall r | r in t.manifests
      ensures ManifestFits(t, r)
    {
      if r != run { assert ManifestFits(s, r); }
    }
    forall r, q | r in t.manifests && q in t.manifests
      ensures Apart(t, r, q)
    {
      if r != run && q != run { assert Apart(s, r, q); }
      else if r != q {
        var other := if r == run then q else r;
        forall v | v in d.artifacts ensures v !in s.manifests[other].artifacts {
          assert !Claimed(s, v);
          assert !Claims(s.manifests[other], v);
        }
      }
    }
  }

  lemma CopiesKeepInv(s: State, copies: map<Copy, bool>)
    requires Inv(s)
    requires forall c :: c in copies && c.run in s.manifests ==> c in s.copies && copies[c] == s.copies[c]
    ensures Inv(s.(copies := copies))
  {
    var t := s.(copies := copies);
    forall r | r in t.manifests ensures ManifestFits(t, r) { assert ManifestFits(s, r); }
    forall r, q | r in t.manifests && q in t.manifests ensures Apart(t, r, q) { assert Apart(s, r, q); }
  }

  lemma FinishedPrepareKeepsInv(l: Limits, s: State, run: string, since: int, listing: seq<Entry>, used: nat)
    requires Inv(s) && DistinctNames(listing) && run !in s.manifests && !ScanFails(s, since, listing)
    ensures Inv(OnPrepare(l, s, run, since, listing, used, NoFault))
  {
    NewestNine(l, s, since, listing);
    var c := Candidates(s, since, listing);
    var empty := Draft([], [], s.copies, used);
    TakeAllFits(l, s, run, empty, Selected(l, c));
    PublishKeepsInv(s, run, TakeAll(l, s, run, empty, Selected(l, c)), Omitted(|c|));
  }

  lemma KilledPrepareKeepsInv(l: Limits, s: State, run: string, since: int, listing: seq<Entry>, used: nat, done: nat, torn: bool)
    requires Inv(s) && DistinctNames(listing) && run !in s.manifests && !ScanFails(s, since, listing)
    ensures Inv(OnPrepare(l, s, run, since, listing, used, AfterCopies(done, torn)))
  {
    NewestNine(l, s, since, listing);
    var selected := Selected(l, Candidates(s, since, listing));
    var empty := Draft([], [], s.copies, used);
    TakeAllFits(l, s, run, empty, selected);
    if done < |selected| { TakeAllFits(l, s, run, empty, selected[..done]); }
    CopiesKeepInv(s, OnPrepare(l, s, run, since, listing, used, AfterCopies(done, torn)).copies);
  }

  lemma PrepareKeepsInv(l: Limits, s: State, run: string, since: int, listing: seq<Entry>, used: nat, fault: Fault)
    requires Inv(s) && DistinctNames(listing)
    ensures Inv(OnPrepare(l, s, run, since, listing, used, fault))
  {
    if run !in s.manifests && fault != InScan && !ScanFails(s, since, listing) {
      match fault
      case NoFault => FinishedPrepareKeepsInv(l, s, run, since, listing, used);
      case AfterCopies(done, torn) => KilledPrepareKeepsInv(l, s, run, since, listing, used, done, torn);
      case InScan =>
    }
  }

  lemma ReleaseKeepsInv(s: State, run: string, live: map<string, Version>, quarantined: bool, finished: bool)
    requires Inv(s)
    ensures Inv(OnRelease(s, run, live, quarantined, finished))
  {
    var kept := map c | c in s.copies && c.run != run :: s.copies[c];
    CopiesKeepInv(s, kept);
    var t := State(s.manifests - {run}, kept);
    var u := s.(copies := kept);
    forall r | r in t.manifests ensures ManifestFits(t, r) { assert ManifestFits(u, r); }
    forall r, q | r in t.manifests && q in t.manifests ensures Apart(t, r, q) { assert Apart(u, r, q); }
  }

  lemma StepKeepsInv(l: Limits, s: State, a: Action)
    requires Inv(s) && (a.Prepare? ==> DistinctNames(a.listing))
    ensures Inv(Step(l, s, a))
  {
    match a
    case Prepare(run, since, listing, used, fault) => PrepareKeepsInv(l, s, run, since, listing, used, fault);
    case Discard(copy) => CopiesKeepInv(s, s.copies - {copy});
    case Release(run, live, quarantined, finished) => ReleaseKeepsInv(s, run, live, quarantined, finished);
  }

  lemma {:induction false} RunKeepsInv(l: Limits, s: State, actions: seq<Action>)
    requires Inv(s) && Listings(actions)
    ensures Inv(Run(l, s, actions))
    decreases |actions|
  {
    if actions != [] {
      StepKeepsInv(l, s, actions[0]);
      forall k | 0 <= k < |actions[1..]| && actions[1..][k].Prepare? ensures DistinctNames(actions[1..][k].listing) {
        assert actions[1..][k] == actions[k + 1];
      }
      RunKeepsInv(l, Step(l, s, actions[0]), actions[1..]);
    }
  }

  function Empty(): State { State(map[], map[]) }

  /** Whatever is prepared, interrupted, restarted, cleaned up and released, no two retained
      manifests claim the same version of a file, nor does one claim it twice. */
  lemma NoVersionIsClaimedTwice(l: Limits, actions: seq<Action>, r: string, q: string, j: nat, k: nat)
    requires Listings(actions)
    requires var s := Run(l, Empty(), actions);
      && r in s.manifests && q in s.manifests
      && j < |s.manifests[r].artifacts| && k < |s.manifests[q].artifacts|
      && s.manifests[r].artifacts[j] == s.manifests[q].artifacts[k]
    ensures r == q && j == k
  {
    var s := Run(l, Empty(), actions);
    RunKeepsInv(l, Empty(), actions);
    assert ManifestFits(s, r) && Apart(s, r, q);
    assert s.manifests[r].artifacts[j] in s.manifests[r].artifacts;
  }

  /** This action retires the run: a finished release that saw no quarantine, and none of the
      run's versions at its path. */
  predicate Retires(s: State, a: Action, r: string, m: Manifest) {
    && r in s.manifests && s.manifests[r] == m
    && a.Release? && a.run == r && a.finished && !a.quarantined && !StillCurrent(m, a.live)
  }

  /** A published manifest is frozen, over every run: it is still there unchanged, unless at some
      point the run was retired. Until then no attempt of any run, finished or killed, no change
      of the files and no other release touches it. */
  lemma {:induction false} ManifestsAreFrozen(l: Limits, s: State, actions: seq<Action>, r: string)
    requires r in s.manifests
    ensures var t := Run(l, s, actions);
      || (r in t.manifests && t.manifests[r] == s.manifests[r])
      || exists i :: 0 <= i < |actions| && Retires(Run(l, s, actions[..i]), actions[i], r, s.manifests[r])
    decreases |actions|
  {
    if actions != [] {
      var u := Step(l, s, actions[0]);
      if r in u.manifests {
        assert u.manifests[r] == s.manifests[r];
        ManifestsAreFrozen(l, u, actions[1..], r);
        if i :| 0 <= i < |actions[1..]| && Retires(Run(l, u, actions[1..][..i]), actions[1..][i], r, s.manifests[r]) {
          assert actions[..i + 1][1..] == actions[1..][..i] && actions[..i + 1][0] == actions[0];
          assert Run(l, s, actions[..i + 1]) == Run(l, u, actions[1..][..i]);
          assert actions[i + 1] == actions[1..][i];
        }
      } else {
        assert Run(l, s, actions[..0]) == s;
        assert Retires(Run(l, s, actions[..0]), actions[0], r, s.manifests[r]);
      }
    }
  }

  /** An interrupted release keeps every claim, and running it again on the same files ends as
      an uninterrupted one would have. */
  lemma InterruptedReleaseReplays(s: State, run: string, live: map<string, Version>, quarantined: bool)
    ensures var half := OnRelease(s, run, live, quarantined, false);
      && half.manifests == s.manifests
      && OnRelease(half, run, live, quarantined, true) == OnRelease(s, run, live, quarantined, true)
  {
    var kept := map c | c in s.copies && c.run != run :: s.copies[c];
    assert (map c | c in kept && c.run != run :: kept[c]) == kept;
  }

  // ---------- Restarting after a crash ----------

  predicate Torn(copies: map<Copy, bool>, c: Copy) { c in copies && !copies[c] }

  function VersionOf(e: Entry): Version
    requires e.taken.Bytes?
  {
    Version(e.name, e.taken.stat, e.taken.content)
  }

  function CopyOf(run: string, e: Entry): Copy
    requires e.taken.Bytes?
  {
    Copy(run, e.name, e.taken.content)
  }

  /** Readable, and claimed by no manifest. */
  predicate IsNew(s: State, e: Entry) { e.taken.Bytes? && !Claimed(s, VersionOf(e)) }

  predicate Fits(l: Limits, used: nat, e: Entry)
    requires e.taken.Bytes?
  {
    used + |e.taken.content| + RESERVE <= l.maxTotalBytes
  }

  /** The draft of an attempt after the first `n` files, or all. */
  function DraftAfter(l: Limits, s: State, run: string, used: nat, selected: seq<Entry>, n: nat): Draft {
    TakeAll(l, s, run, Draft([], [], s.copies, used), selected[..Min(n, |selected|)])
  }

  lemma {:induction false} TakeAllSplits(l: Limits, s: State, run: string, d: Draft, a: seq<Entry>, b: seq<Entry>)
    ensures TakeAll(l, s, run, d, a + b) == TakeAll(l, s, run, TakeAll(l, s, run, d, a), b)
    decreases |a|
  {
    if a == [] {
      assert a + b == b;
    } else {
      assert (a + b)[1..] == a[1..] + b;
      TakeAllSplits(l, s, run, TakeOne(l, s, run, d, a[0]), a[1..], b);
    }
  }

  /** One file further. */
  lemma TakeNext(l: Limits, s: State, run: string, d: Draft, selected: seq<Entry>, i: nat)
    requires i < |selected|
    ensures TakeAll(l, s, run, d, selected[..i + 1]) == TakeOne(l, s, run, TakeAll(l, s, run, d, selected[..i]), selected[i])
  {
    assert selected[..i + 1] == selected[..i] + [selected[i]] && [selected[i]][1..] == [];
    TakeAllSplits(l, s, run, d, selected[..i], [selected[i]]);
    var t := TakeAll(l, s, run, d, selected[..i]);
    assert TakeAll(l, s, run, t, [selected[i]]) == TakeAll(l, s, run, TakeOne(l, s, run, t, selected[i]), []);
  }

  lemma TakeRest(l: Limits, s: State, run: string, d: Draft, selected: seq<Entry>, i: nat)
    requires i <= |selected|
    ensures TakeAll(l, s, run, d, selected) == TakeAll(l, s, run, TakeAll(l, s, run, d, selected[..i]), selected[i..])
  {
    assert selected == selected[..i] + selected[i..];
    TakeAllSplits(l, s, run, d, selected[..i], selected[i..]);
  }

  /** A draft only grows, and only by files it was given. */
  lemma {:induction false} TakeAllGrows(l: Limits, s: State, run: string, d: Draft, selected: seq<Entry>)
    ensures var t := TakeAll(l, s, run, d, selected);
      && d.artifacts <= t.artifacts && d.failures <= t.failures && d.used <= t.used
      && forall v :: v in t.artifacts && v !in d.artifacts ==> Named(selected, v.name)
    decreases |selected|
  {
    if selected != [] {
      var t := TakeOne(l, s, run, d, selected[0]);
      TakeAllGrows(l, s, run, t, selected[1..]);
      forall v | v in TakeAll(l, s, run, d, selected).artifacts && v !in d.artifacts
        ensures Named(selected, v.name)
      {
        if v in t.artifacts {
          assert selected[0].name == v.name;
        } else {
          var k :| 0 <= k < |selected[1..]| && selected[1..][k].name == v.name;
          assert selected[k + 1].name == v.name;
        }
      }
    }
  }

  predicate Named(selected: seq<Entry>, name: string) { exists k :: 0 <= k < |selected| && selected[k].name == name }

  /** Files of other names leave a copy as it is. */
  lemma {:induction false} OtherCopiesStay(l: Limits, s: State, run: string, d: Draft, selected: seq<Entry>, c: Copy)
    requires !Named(selected, c.name)
    ensures SameAt(TakeAll(l, s, run, d, selected).copies, d.copies, c)
    decreases |selected|
  {
    if selected != [] {
      assert selected[0].name != c.name;
      assert forall k :: 0 <= k < |selected[1..]| ==> selected[1..][k].name == selected[k + 1].name;
      OtherCopiesStay(l, s, run, TakeOne(l, s, run, d, selected[0]), selected[1..], c);
    }
  }

  predicate SameAt(a: map<Copy, bool>, b: map<Copy, bool>, c: Copy) { (c in a <==> c in b) && (c in a ==> a[c] == b[c]) }

  /** A version whose copy was left half written is never taken. */
  lemma {:induction false} TornIsNeverTaken(l: Limits, s: State, run: string, d: Draft, selected: seq<Entry>, v: Version)
    requires Torn(d.copies, Copy(run, v.name, v.content)) && v !in d.artifacts
    ensures v !in TakeAll(l, s, run, d, selected).artifacts
    decreases |selected|
  {
    if selected != [] { TornIsNeverTaken(l, s, run, TakeOne(l, s, run, d, selected[0]), selected[1..], v); }
  }

  /** The crash leaves a copy half written: its file is new, fits, is not empty, and had no copy yet. */
  predicate LeavesTorn(l: Limits, s: State, run: string, used: nat, selected: seq<Entry>, done: nat, torn: bool) {
    torn && done < |selected| &&
      var e := selected[done];
      && IsNew(s, e) && e.taken.content != [] && CopyOf(run, e) !in s.copies
      && Fits(l, DraftAfter(l, s, run, used, selected, done).used, e)
  }

  /** Every file that the killed attempt found room for has room again beside all it had copied. */
  predicate RoomAgain(l: Limits, s: State, run: string, used: nat, selected: seq<Entry>, n: nat) {
    var u := DraftAfter(l, s, run, used, selected, n).used;
    forall i :: 0 <= i < n && i < |selected| ==> FitsAgain(l, s, run, used, selected, u, i)
  }

  predicate FitsAgain(l: Limits, s: State, run: string, used: nat, selected: seq<Entry>, u: nat, i: nat)
    requires i < |selected|
  {
    HadRoom(l, s, run, used, selected, i) ==> Fits(l, u, selected[i])
  }

  predicate HadRoom(l: Limits, s: State, run: string, used: nat, selected: seq<Entry>, i: nat)
    requires i < |selected|
  {
    IsNew(s, selected[i]) && Fits(l, DraftAfter(l, s, run, used, selected, i).used, selected[i])
  }

  /** What an attempt that is not disturbed leaves claimed. */
  function Published(l: Limits, s: State, run: string, since: int, listing: seq<Entry>, used: nat): map<string, Manifest> {
    OnPrepare(l, s, run, since, listing, used, NoFault).manifests
  }

  /** On a spool with the same manifests, whatever its copies. */
  lemma PublishedFrom(l: Limits, s: State, copies: map<Copy, bool>, run: string, since: int, listing: seq<Entry>, used: nat)
    requires run !in s.manifests && !ScanFails(s, since, listing)
    ensures var c := Candidates(s, since, listing);
      Published(l, s.(copies := copies), run, since, listing, used)
        == s.manifests[run := ManifestOf(TakeAll(l, s, run, Draft([], [], copies, used), Selected(l, c)), |c|)]
  {
    SameClaims(l, s, copies, since, listing, run, Draft([], [], copies, used), Selected(l, Candidates(s, since, listing)));
  }

  /** Two drafts of the same files publish the same exactly if they took and refused the same. */
  lemma SameDrafts(manifests: map<string, Manifest>, run: string, d: Draft, e: Draft, n: nat)
    ensures manifests[run := ManifestOf(d, n)] == manifests[run := ManifestOf(e, n)]
      <==> d.artifacts == e.artifacts && d.failures == e.failures
  {
    assert manifests[run := ManifestOf(d, n)][run] == ManifestOf(d, n);
    assert manifests[run := ManifestOf(e, n)][run] == ManifestOf(e, n);
  }

  /** What stands before and after one file of the killed attempt, seen from its end. */
  lemma AroundOne(l: Limits, s: State, run: string, used: nat, selected: seq<Entry>, n: nat, i: nat)
    requires i < n <= |selected| && DistinctNames(selected)
    ensures var x, y, d := DraftAfter(l, s, run, used, selected, i), DraftAfter(l, s, run, used, selected, i + 1),
        DraftAfter(l, s, run, used, selected, n);
      && y == TakeOne(l, s, run, x, selected[i]) && x.used <= d.used
      && (selected[i].taken.Bytes? ==>
        SameAt(d.copies, y.copies, CopyOf(run, selected[i])) && SameAt(x.copies, s.copies, CopyOf(run, selected[i])))
  {
    var first := Draft([], [], s.copies, used);
    TakeNext(l, s, run, first, selected, i);
    assert selected[..n][..i + 1] == selected[..i + 1] && selected[..n][..i] == selected[..i];
    TakeRest(l, s, run, first, selected[..n], i + 1);
    TakeRest(l, s, run, first, selected[..n], i);
    var x := TakeAll(l, s, run, first, selected[..i]);
    var y := TakeAll(l, s, run, first, selected[..i + 1]);
    TakeAllGrows(l, s, run, x, selected[..n][i..]);
    if selected[i].taken.Bytes? {
      assert !Named(selected[..n][i + 1..], selected[i].name) && !Named(selected[..i], selected[i].name);
      OtherCopiesStay(l, s, run, y, selected[..n][i + 1..], CopyOf(run, selected[i]));
      OtherCopiesStay(l, s, run, first, selected[..i], CopyOf(run, selected[i]));
    }
  }

  /** The draft of a restart after `i` files, as long as there was room: what the killed attempt
      had taken and refused by then, with all its copies in place. */
  predicate Caught(y: Draft, x: Draft, d: Draft) {
    y.artifacts == x.artifacts && y.failures == x.failures && y.copies == d.copies && y.used == d.used
  }

  lemma CatchesOne(l: Limits, s: State, run: string, used: nat, selected: seq<Entry>, n: nat, i: nat, y: Draft)
    requires i < n <= |selected| && DistinctNames(selected)
    requires Caught(y, DraftAfter(l, s, run, used, selected, i), DraftAfter(l, s, run, used, selected, n))
    requires FitsAgain(l, s, run, used, selected, DraftAfter(l, s, run, used, selected, n).used, i)
    ensures Caught(TakeOne(l, s, run, y, selected[i]), DraftAfter(l, s, run, used, selected, i + 1),
      DraftAfter(l, s, run, used, selected, n))
  {
    AroundOne(l, s, run, used, selected, n, i);
    if IsNew(s, selected[i]) && CopyOf(run, selected[i]) in y.copies && y.copies[CopyOf(run, selected[i])] {
      assert y.copies[CopyOf(run, selected[i]) := true] == y.copies;
    }
  }

  lemma {:induction false} CatchesUp(l: Limits, s: State, run: string, used: nat, selected: seq<Entry>, n: nat, i: nat)
    requires i <= n <= |selected| && DistinctNames(selected)
    requires var u := DraftAfter(l, s, run, used, selected, n).used;
      forall j :: 0 <= j < i ==> FitsAgain(l, s, run, used, selected, u, j)
    ensures var d := DraftAfter(l, s, run, used, selected, n);
      Caught(TakeAll(l, s, run, Draft([], [], d.copies, d.used), selected[..i]), DraftAfter(l, s, run, used, selected, i), d)
    decreases i
  {
    var d := DraftAfter(l, s, run, used, selected, n);
    var second := Draft([], [], d.copies, d.used);
    if i > 0 {
      CatchesUp(l, s, run, used, selected, n, i - 1);
      TakeNext(l, s, run, second, selected, i - 1);
      CatchesOne(l, s, run, used, selected, n, i - 1, TakeAll(l, s, run, second, selected[..i - 1]));
    }
  }

  /** With room for all of it, the restart ends in the very draft of the undisturbed attempt. */
  lemma RoomSuffices(l: Limits, s: State, run: string, used: nat, selected: seq<Entry>, n: nat)
    requires n <= |selected| && DistinctNames(selected) && RoomAgain(l, s, run, used, selected, n)
    ensures var d := DraftAfter(l, s, run, used, selected, n);
      TakeAll(l, s, run, Draft([], [], d.copies, d.used), selected)
        == TakeAll(l, s, run, Draft([], [], s.copies, used), selected)
  {
    var d := DraftAfter(l, s, run, used, selected, n);
    CatchesUp(l, s, run, used, selected, n, n);
    TakeRest(l, s, run, Draft([], [], d.copies, d.used), selected, n);
    TakeRest(l, s, run, Draft([], [], s.copies, used), selected, n);
  }

  /** Two drafts that report one file differently end differently. */
  predicate Differ(x: Draft, y: Draft) { x.artifacts != y.artifacts || x.failures != y.failures }

  /** The first file for which there is no room again is refused by the restart alone. */
  lemma OneIsRefused(l: Limits, s: State, run: string, used: nat, selected: seq<Entry>, n: nat, i: nat)
    requires i < n <= |selected| && DistinctNames(selected)
    requires var u := DraftAfter(l, s, run, used, selected, n).used;
      forall j :: 0 <= j < i ==> FitsAgain(l, s, run, used, selected, u, j)
    requires !FitsAgain(l, s, run, used, selected, DraftAfter(l, s, run, used, selected, n).used, i)
    ensures var d := DraftAfter(l, s, run, used, selected, n);
      Differ(TakeAll(l, s, run, Draft([], [], s.copies, used), selected),
        TakeAll(l, s, run, Draft([], [], d.copies, d.used), selected))
  {
    var d := DraftAfter(l, s, run, used, selected, n);
    var first, second := Draft([], [], s.copies, used), Draft([], [], d.copies, d.used);
    CatchesUp(l, s, run, used, selected, n, i);
    TakeNext(l, s, run, first, selected, i);
    TakeNext(l, s, run, second, selected, i);
    TakeRest(l, s, run, first, selected, i + 1);
    TakeRest(l, s, run, second, selected, i + 1);
    var x, y := TakeAll(l, s, run, first, selected[..i]), TakeAll(l, s, run, second, selected[..i]);
    TakeAllGrows(l, s, run, first, selected[..i]);
    ReportedDifferently(l, s, run, x, y, selected, i);
  }

  lemma ReportedDifferently(l: Limits, s: State, run: string, x: Draft, y: Draft, selected: seq<Entry>, i: nat)
    requires i < |selected| && DistinctNames(selected) && IsNew(s, selected[i])
    requires x.artifacts == y.artifacts && x.failures == y.failures
    requires forall v :: v in x.artifacts ==> Named(selected[..i], v.name)
    requires Fits(l, x.used, selected[i]) && !Fits(l, y.used, selected[i])
    ensures Differ(TakeAll(l, s, run, TakeOne(l, s, run, x, selected[i]), selected[i + 1..]),
      TakeAll(l, s, run, TakeOne(l, s, run, y, selected[i]), selected[i + 1..]))
  {
    var e, k := selected[i], |x.failures|;
    var x1, y1 := TakeOne(l, s, run, x, e), TakeOne(l, s, run, y, e);
    var x2, y2 := TakeAll(l, s, run, x1, selected[i + 1..]), TakeAll(l, s, run, y1, selected[i + 1..]);
    TakeAllGrows(l, s, run, x1, selected[i + 1..]);
    TakeAllGrows(l, s, run, y1, selected[i + 1..]);
    assert !Named(selected[i + 1..], e.name) && !Named(selected[..i], e.name);
    if Torn(x.copies, CopyOf(run, e)) {
      assert x2.failures[k] == x1.failures[k] != y1.failures[k] == y2.failures[k];
    } else {
      assert x1.artifacts == x.artifacts + [VersionOf(e)] && VersionOf(e) in x2.artifacts;
      assert VersionOf(e) !in y1.artifacts && VersionOf(e) !in y2.artifacts;
    }
  }

  lemma {:induction false} RoomIsNeeded(l: Limits, s: State, run: string, used: nat, selected: seq<Entry>, n: nat, i: nat)
    requires i < n <= |selected| && DistinctNames(selected)
    requires !FitsAgain(l, s, run, used, selected, DraftAfter(l, s, run, used, selected, n).used, i)
    ensures var d := DraftAfter(l, s, run, used, selected, n);
      Differ(TakeAll(l, s, run, Draft([], [], s.copies, used), selected),
        TakeAll(l, s, run, Draft([], [], d.copies, d.used), selected))
    decreases i
  {
    var u := DraftAfter(l, s, run, used, selected, n).used;
    if j :| 0 <= j < i && !FitsAgain(l, s, run, used, selected, u, j) {
      RoomIsNeeded(l, s, run, used, selected, n, j);
    } else {
      OneIsRefused(l, s, run, used, selected, n, i);
    }
  }

  /** A torn file is taken by the undisturbed attempt and never by the restart. */
  lemma TornDiffers(l: Limits, s: State, run: string, used: nat, selected: seq<Entry>, done: nat, second: Draft)
    requires DistinctNames(selected) && LeavesTorn(l, s, run, used, selected, done, true)
    requires second.artifacts == [] && Torn(second.copies, CopyOf(run, selected[done]))
    ensures Differ(TakeAll(l, s, run, Draft([], [], s.copies, used), selected), TakeAll(l, s, run, second, selected))
  {
    var first, v := Draft([], [], s.copies, used), VersionOf(selected[done]);
    AroundOne(l, s, run, used, selected, |selected|, done);
    TakeRest(l, s, run, first, selected, done + 1);
    var y := TakeAll(l, s, run, first, selected[..done + 1]);
    assert v in y.artifacts;
    TakeAllGrows(l, s, run, y, selected[done + 1..]);
    TornIsNeverTaken(l, s, run, second, selected, v);
  }

  predicate TearsEmpty(l: Limits, s: State, run: string, used: nat, selected: seq<Entry>, done: nat)
    requires done < |selected|
  {
    var e := selected[done];
    HadRoom(l, s, run, used, selected, done) && e.taken.content == [] && CopyOf(run, e) !in s.copies
  }

  lemma TearOne(l: Limits, s: State, run: string, used: nat, selected: seq<Entry>, done: nat)
    requires done < |selected| && DistinctNames(selected)
    ensures var d := DraftAfter(l, s, run, used, selected, done);
      Tear(l, s, run, d, selected[done]) ==
        if LeavesTorn(l, s, run, used, selected, done, true) then d.copies[CopyOf(run, selected[done]) := false]
        else if TearsEmpty(l, s, run, used, selected, done) then DraftAfter(l, s, run, used, selected, done + 1).copies
        else d.copies
  {
    var e, d := selected[done], DraftAfter(l, s, run, used, selected, done);
    AroundOne(l, s, run, used, selected, done + 1, done);
    if e.taken.Bytes? {
      var copy := CopyOf(run, e);
      assert copy in d.copies && d.copies[copy] ==> d.copies[copy := true] == d.copies;
      assert HadRoom(l, s, run, used, selected, done) && copy !in d.copies ==> copy in TakeOne(l, s, run, d, e).copies;
    }
  }

  /** An empty file takes no room. */
  lemma EmptyTakesNoRoom(l: Limits, s: State, run: string, used: nat, selected: seq<Entry>, done: nat)
    requires done < |selected| && DistinctNames(selected) && TearsEmpty(l, s, run, used, selected, done)
    ensures DraftAfter(l, s, run, used, selected, done + 1).used == DraftAfter(l, s, run, used, selected, done).used
    ensures RoomAgain(l, s, run, used, selected, done + 1) <==> RoomAgain(l, s, run, used, selected, done)
  {
    AroundOne(l, s, run, used, selected, done + 1, done);
    var u := DraftAfter(l, s, run, used, selected, done).used;
    assert DraftAfter(l, s, run, used, selected, done + 1).used == u;
    assert FitsAgain(l, s, run, used, selected, u, done);
  }

  /** What the crash leaves: a torn copy, or the copies of some first files. An empty file's copy is
      complete as soon as it is there. */
  lemma LeftByCrash(l: Limits, s: State, run: string, since: int, listing: seq<Entry>, used: nat, done: nat, torn: bool)
      returns (n: nat)
    requires run !in s.manifests && !ScanFails(s, since, listing)
    requires DistinctNames(Selected(l, Candidates(s, since, listing)))
    ensures var t := OnPrepare(l, s, run, since, listing, used, AfterCopies(done, torn));
      var selected := Selected(l, Candidates(s, since, listing));
      && n <= |selected| && t == s.(copies := t.copies)
      && (if LeavesTorn(l, s, run, used, selected, done, torn) then done < |selected| && Torn(t.copies, CopyOf(run, selected[done]))
         else t.copies == DraftAfter(l, s, run, used, selected, n).copies)
      && DraftAfter(l, s, run, used, selected, n).used == DraftAfter(l, s, run, used, selected, done).used
      && (RoomAgain(l, s, run, used, selected, n) <==> RoomAgain(l, s, run, used, selected, done))
  {
    var selected := Selected(l, Candidates(s, since, listing));
    n := Min(done, |selected|);
    if done < |selected| {
      TearOne(l, s, run, used, selected, done);
      if torn && TearsEmpty(l, s, run, used, selected, done) {
        EmptyTakesNoRoom(l, s, run, used, selected, done);
        n := done + 1;
      }
    } else {
      assert selected[..|selected|] == selected;
    }
  }

  /** A crash anywhere before the manifest: the restart on the same files, which counts as used what
      was and every copy the killed attempt made, publishes the manifest that attempt would have
      published, if and only if none was left half written and there is room again for every file
      the attempt had found room for. How much of a half written copy is counted does not matter. */
  lemma RestartPublishesTheSame(l: Limits, s: State, run: string, since: int, listing: seq<Entry>, used: nat,
                                done: nat, torn: bool, again: nat)
    requires run !in s.manifests && !ScanFails(s, since, listing) && DistinctNames(listing)
    requires var selected := Selected(l, Candidates(s, since, listing));
      LeavesTorn(l, s, run, used, selected, done, torn) || again == DraftAfter(l, s, run, used, selected, done).used
    ensures var t := OnPrepare(l, s, run, since, listing, used, AfterCopies(done, torn));
      var selected := Selected(l, Candidates(s, since, listing));
      (Published(l, t, run, since, listing, again) == Published(l, s, run, since, listing, used))
        <==> !LeavesTorn(l, s, run, used, selected, done, torn) && RoomAgain(l, s, run, used, selected, done)
  {
    if LeavesTorn(l, s, run, used, Selected(l, Candidates(s, since, listing)), done, torn) {
      TornIsPublishedOtherwise(l, s, run, since, listing, used, done, torn, again);
    } else {
      WholeIsPublishedWithRoom(l, s, run, since, listing, used, done, torn);
    }
  }

  lemma TornIsPublishedOtherwise(l: Limits, s: State, run: string, since: int, listing: seq<Entry>, used: nat,
                                 done: nat, torn: bool, again: nat)
    requires run !in s.manifests && !ScanFails(s, since, listing) && DistinctNames(listing)
    requires LeavesTorn(l, s, run, used, Selected(l, Candidates(s, since, listing)), done, torn)
    ensures var t := OnPrepare(l, s, run, since, listing, used, AfterCopies(done, torn));
      Published(l, t, run, since, listing, again) != Published(l, s, run, since, listing, used)
  {
    var t := OnPrepare(l, s, run, since, listing, used, AfterCopies(done, torn));
    NewestNine(l, s, since, listing);
    var n := LeftByCrash(l, s, run, since, listing, used, done, torn);
    TornDiffers(l, s, run, used, Selected(l, Candidates(s, since, listing)), done, Draft([], [], t.copies, again));
    PublishedTwice(l, s, t, run, since, listing, used, again);
  }

  lemma WholeIsPublishedWithRoom(l: Limits, s: State, run: string, since: int, listing: seq<Entry>, used: nat,
                                 done: nat, torn: bool)
    requires run !in s.manifests && !ScanFails(s, since, listing) && DistinctNames(listing)
    requires !LeavesTorn(l, s, run, used, Selected(l, Candidates(s, since, listing)), done, torn)
    ensures var t := OnPrepare(l, s, run, since, listing, used, AfterCopies(done, torn));
      var selected := Selected(l, Candidates(s, since, listing));
      var again := DraftAfter(l, s, run, used, selected, done).used;
      (Published(l, t, run, since, listing, again) == Published(l, s, run, since, listing, used))
        <==> RoomAgain(l, s, run, used, selected, done)
  {
    var t := OnPrepare(l, s, run, since, listing, used, AfterCopies(done, torn));
    var selected := Selected(l, Candidates(s, since, listing));
    NewestNine(l, s, since, listing);
    var n := LeftByCrash(l, s, run, since, listing, used, done, torn);
    RoomDecides(l, s, run, used, selected, n);
    PublishedTwice(l, s, t, run, since, listing, used, DraftAfter(l, s, run, used, selected, done).used);
  }

  /** The undisturbed attempt and one on other copies, with other use of the spool, report alike. */
  predicate Alike(l: Limits, s: State, run: string, selected: seq<Entry>, used: nat, copies: map<Copy, bool>, again: nat) {
    !Differ(TakeAll(l, s, run, Draft([], [], s.copies, used), selected),
      TakeAll(l, s, run, Draft([], [], copies, again), selected))
  }

  lemma RoomDecides(l: Limits, s: State, run: string, used: nat, selected: seq<Entry>, n: nat)
    requires n <= |selected| && DistinctNames(selected)
    ensures var d := DraftAfter(l, s, run, used, selected, n);
      Alike(l, s, run, selected, used, d.copies, d.used) <==> RoomAgain(l, s, run, used, selected, n)
  {
    if RoomAgain(l, s, run, used, selected, n) {
      RoomSuffices(l, s, run, used, selected, n);
    } else {
      var u := DraftAfter(l, s, run, used, selected, n).used;
      var i :| 0 <= i < n && !FitsAgain(l, s, run, used, selected, u, i);
      RoomIsNeeded(l, s, run, used, selected, n, i);
    }
  }

  /** The two attempts publish the same exactly if their drafts do not differ. */
  lemma PublishedTwice(l: Limits, s: State, t: State, run: string, since: int, listing: seq<Entry>, used: nat, again: nat)
    requires run !in s.manifests && !ScanFails(s, since, listing) && t == s.(copies := t.copies)
    ensures var selected := Selected(l, Candidates(s, since, listing));
      (Published(l, t, run, since, listing, again) == Published(l, s, run, since, listing, used))
        <==> Alike(l, s, run, selected, used, t.copies, again)
  {
    var candidates := Candidates(s, since, listing);
    var selected := Selected(l, candidates);
    PublishedFrom(l, s, t.copies, run, since, listing, again);
    PublishedFrom(l, s, s.copies, run, since, listing, used);
    assert s.(copies := s.copies) == s;
    SameDrafts(s.manifests, run, TakeAll(l, s, run, Draft([], [], s.copies, used), selected),
      TakeAll(l, s, run, Draft([], [], t.copies, again), selected), |candidates|);
  }

  lemma OneFileIsFound(e: Entry)
    requires e.listed && e.stat.Some? && e.stat.value.mtime >= 0
    ensures !ScanFails(Empty(), 0, [e]) && Candidates(Empty(), 0, [e]) == [e]
  {
    assert Judge(Empty(), 0, e) == Take(0);
    assert [e][1..] == [] && [e] + [] == [e];
    assert Candidates(Empty(), 0, []) == [];
  }

  lemma OneFileIsSelected(l: Limits, e: Entry)
    ensures Selected(l, [e]) == [e]
  {
    assert [e][..0] == [];
    assert Insert(l, [], e) == [] + [e] == [e];
    assert SortByTime(l, [e]) == Insert(l, SortByTime(l, []), e);
  }

  /** The exception is real: one new file, an empty spool, a crash while its copy is written. The
      restart publishes a failure where an undisturbed attempt publishes the file. */
  lemma TornCopyIsLost(l: Limits, run: string, e: Entry)
    requires e.listed && e.stat.Some? && e.stat.value.mtime >= 0
    requires e.taken.Bytes? && e.taken.content != [] && |e.taken.content| + RESERVE <= l.maxTotalBytes
    ensures var t := OnPrepare(l, Empty(), run, 0, [e], 0, AfterCopies(0, true));
      && Published(l, Empty(), run, 0, [e], 0) == map[run := Manifest([Version(e.name, e.taken.stat, e.taken.content)], [], 0)]
      && Published(l, t, run, 0, [e], 0) == map[run := Manifest([], [Failure(e.name, "artifact_snapshot_failed")], 0)]
  {
    OneFileIsFound(e);
    OneFileIsSelected(l, e);
    var copies := map[Copy(run, e.name, e.taken.content) := false];
    var draft := Draft([], [], map[], 0);
    assert [e][1..] == [] && [e][..0] == [];
    assert TakeAll(l, Empty(), run, draft, []) == draft;
    assert OnPrepare(l, Empty(), run, 0, [e], 0, AfterCopies(0, true)) == State(map[], copies);
    PublishedFrom(l, Empty(), copies, run, 0, [e], 0);
    PublishedFrom(l, Empty(), map[], run, 0, [e], 0);
    var torn := TakeOne(l, Empty(), run, Draft([], [], copies, 0), e);
    assert TakeAll(l, Empty(), run, Draft([], [], copies, 0), [e]) == TakeAll(l, Empty(), run, torn, []) == torn;
    var whole := TakeOne(l, Empty(), run, draft, e);
    assert TakeAll(l, Empty(), run, draft, [e]) == TakeAll(l, Empty(), run, whole, []) == whole;
    assert Empty().(copies := map[]) == Empty() && Omitted(1) == 0;
    assert map[][run := ManifestOf(whole, 1)] == map[run := ManifestOf(whole, 1)];
    assert map[][run := ManifestOf(torn, 1)] == map[run := ManifestOf(torn, 1)];
    assert [] + [Version(e.name, e.taken.stat, e.taken.content)] == [Version(e.name, e.taken.stat, e.taken.content)];
    assert [] + [Failure(e.name, "artifact_snapshot_failed")] == [Failure(e.name, "artifact_snapshot_failed")];
  }

  /** So is the need for room: a file that fits once but not twice is copied, the attempt is
      killed before its manifest, and the restart, which counts that copy as used, refuses it. */
  lemma NearlyFullSpoolRefuses(l: Limits, run: string, e: Entry)
    requires e.listed && e.stat.Some? && e.stat.value.mtime >= 0 && e.taken.Bytes?
    requires |e.taken.content| + RESERVE <= l.maxTotalBytes < 2 * |e.taken.content| + RESERVE
    ensures var t := OnPrepare(l, Empty(), run, 0, [e], 0, AfterCopies(1, false));
      && t.copies == map[Copy(run, e.name, e.taken.content) := true]
      && Published(l, t, run, 0, [e], |e.taken.content|)
        == map[run := Manifest([], [Failure(e.name, "artifact_storage_full")], 0)]
  {
    OneFileIsFound(e);
    OneFileIsSelected(l, e);
    var size := |e.taken.content|;
    var copies := map[Copy(run, e.name, e.taken.content) := true];
    assert [e][1..] == [];
    var whole := TakeOne(l, Empty(), run, Draft([], [], map[], 0), e);
    assert TakeAll(l, Empty(), run, Draft([], [], map[], 0), [e]) == TakeAll(l, Empty(), run, whole, []) == whole;
    assert OnPrepare(l, Empty(), run, 0, [e], 0, AfterCopies(1, false)) == State(map[], copies);
    PublishedFrom(l, Empty(), copies, run, 0, [e], size);
    var full := TakeOne(l, Empty(), run, Draft([], [], copies, size), e);
    assert TakeAll(l, Empty(), run, Draft([], [], copies, size), [e]) == TakeAll(l, Empty(), run, full, []) == full;
    assert Omitted(1) == 0 && map[][run := ManifestOf(full, 1)] == map[run := ManifestOf(full, 1)];
    assert [] + [Failure(e.name, "artifact_storage_full")] == [Failure(e.name, "artifact_storage_full")];
  }

  /** The scan and the claims look only at manifests. */
  lemma {:induction false} SameClaims(l: Limits, s: State, copies: map<Copy, bool>, since: int, listing: seq<Entry>, run: string, d: Draft, selected: seq<Entry>)
    ensures var t := s.(copies := copies);
      && Candidates(t, since, listing) == Candidates(s, since, listing)
      && (ScanFails(t, since, listing) <==> ScanFails(s, since, listing))
      && TakeAll(l, t, run, d, selected) == TakeAll(l, s, run, d, selected)
    decreases |listing| + |selected|
  {
    var t := s.(copies := copies);
    assert forall v :: Claimed(t, v) <==> Claimed(s, v);
    assert forall n, x :: StatClaimed(t, n, x) <==> StatClaimed(s, n, x);
    assert forall e :: Judge(t, since, e) == Judge(s, since, e);
    if listing != [] { SameClaims(l, s, copies, since, listing[1..], run, d, selected); }
    if selected != [] { SameClaims(l, s, copies, since, listing, run, TakeOne(l, s, run, d, selected[0]), selected[1..]); }
  }

  // ---------- The spool, updated in place ----------

  class Spool {
    var manifests: map<string, Manifest>
    var copies: map<Copy, bool>
    const limits: Limits

    function Value(): State
      reads this
    {
      State(manifests, copies)
    }

    constructor (limits: Limits)
      ensures this.limits == limits && Value() == Empty()
    {
      this.limits := limits;
      manifests, copies := map[], map[];
    }

    /** The directory scan; `None` when it gives up. */
    method Scan(since: int, listing: seq<Entry>) returns (candidates: Option<seq<Entry>>)
      ensures candidates == if ScanFails(Value(), since, listing) then None else Some(Candidates(Value(), since, listing))
    {
      if |listing| > MAX_ENTRIES { return None; }
      var found: seq<Entry> := [];
      var i := 0;
      NoneFoundYet(Value(), since, listing);
      while i < |listing|
        invariant i <= |listing|
        invariant forall k :: 0 <= k < i ==> !Judge(Value(), since, listing[k]).GiveUp?
        invariant Candidates(Value(), since, listing) == found + Candidates(Value(), since, listing[i..])
      {
        var verdict := Judge(Value(), since, listing[i]);
        if verdict.GiveUp? { return None; }
        FindsNext(Value(), since, listing, i, found);
        if verdict.Take? { found := found + [listing[i]]; }
        i := i + 1;
      }
      assert Candidates(Value(), since, listing[i..]) == [];
      assert found + [] == found;
      return Some(found);
    }

    /** Snapshots of the selected files, then the manifest that publishes them. */
    method Prepare(run: string, since: int, listing: seq<Entry>, used: nat) returns (r: Option<Manifest>)
      modifies this
      ensures Value() == OnPrepare(limits, old(Value()), run, since, listing, used, NoFault)
      ensures r == if run in manifests then Some(manifests[run]) else None
    {
      if run in manifests { return Some(manifests[run]); }
      var candidates := Scan(since, listing);
      if candidates.None? { return None; }
      var selected := Selected(limits, candidates.value);
      var before := Value();
      var artifacts, failures, spent := [], [], used;
      var i := 0;
      while i < |selected|
        invariant i <= |selected| && manifests == old(manifests)
        invariant TakeAll(limits, before, run, Draft([], [], before.copies, used), selected)
          == TakeAll(limits, before, run, Draft(artifacts, failures, copies, spent), selected[i..])
      {
        var d := TakeOne(limits, before, run, Draft(artifacts, failures, copies, spent), selected[i]);
        assert selected[i..][1..] == selected[i + 1..];
        artifacts, failures, copies, spent := d.artifacts, d.failures, d.copies, d.used;
        i := i + 1;
      }
      assert selected[i..] == [];
      var m := Manifest(artifacts, failures, Omitted(|candidates.value|));
      manifests := manifests[run := m];
      return Some(m);
    }

    /** Retires a sealed run; `false` when it still claims a live version or has a quarantine. */
    method ReleaseRun(run: string, live: map<string, Version>, quarantined: bool) returns (retired: bool)
      modifies this
      ensures Value() == OnRelease(old(Value()), run, live, quarantined, true)
      ensures retired <==> !quarantined && !(run in old(manifests) && StillCurrent(old(manifests)[run], live))
    {
      if quarantined { return false; }
      if run in manifests {
        var artifacts := manifests[run].artifacts;
        var i := 0;
        while i < |artifacts|
          invariant i <= |artifacts|
          invariant forall k :: 0 <= k < i ==> !(artifacts[k].name in live && live[artifacts[k].name] == artifacts[k])
        {
          if artifacts[i].name in live && live[artifacts[i].name] == artifacts[i] { return false; }
          i := i + 1;
        }
      }
      copies := map c | c in copies && c.run != run :: copies[c];
      manifests := manifests - {run};
      return true;
    }
  }
}
