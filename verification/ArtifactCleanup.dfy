/** Confirmed cleanup of sent artifacts (src/channels/feishu/outbound-media.mjs, `cleanup`).

    Cleanup and the agent share one file system. Cleanup takes one file-system step at a
    time; the agent may act, or the process may die, between any two of them. Only the
    directory entries, the inodes and the spooled copies survive a crash. */
module ArtifactCleanup {
  import opened Prelude

  type Path = string
  type Artifact = string
  type Bytes = seq<bv8>

  // ---------- The file system ----------

  datatype Kind = File | Directory | Special

  /** What an inode holds; `safe` stands for the owner, mode and size checks. */
  datatype Version = Version(kind: Kind, size: nat, mtime: int, safe: bool, content: Bytes)

  /** The agent works in `Live`; only cleanup names a `Held` entry, the run's private
      `<artifactId>.source`. */
  datatype Entry = Live(path: Path) | Held(artifact: Artifact)

  datatype Disk = Disk(entries: map<Entry, nat>, versions: map<nat, Version>) {
    predicate Valid() { forall e :: e in entries ==> entries[e] in versions }

    /** `nlink` is 1. */
    predicate Sole(e: Entry)
      requires e in entries
    {
      forall x :: x in entries && entries[x] == entries[e] ==> x == e
    }

    predicate Reachable(i: nat) { exists e :: e in entries && entries[e] == i }

    ghost predicate LiveInode(i: nat) { exists p :: Live(p) in entries && entries[Live(p)] == i }
  }

  /** The manifest's record of the version that was sent. */
  datatype Snapshot = Snapshot(fileName: Path, ino: nat, size: nat, mtime: int, content: Bytes)

  /** `sameFile`. */
  predicate SameFile(x: Snapshot, ino: nat, v: Version) { x.ino == ino && x.size == v.size && x.mtime == v.mtime }

  /** The inode is the confirmed-sent version: same stat fields, same bytes. */
  predicate IsSent(x: Snapshot, ino: nat, v: Version) { SameFile(x, ino, v) && x.content == v.content }

  // ---------- Steps ----------

  datatype Pc =
    | InspectHeld | InspectSource | Move | InspectMoved | SyncMovedSource | SyncMovedRun
    | InspectLive | ReadStat | ReadBytes(before: Version) | UnlinkSent | UnlinkRestored
    | Restore | SyncRestored | UnlinkMoved | SyncHeldSource | SyncHeldRun
    | UnlinkCopy | SyncLastSource | SyncLastRun
  {
    predicate Quarantines() {
      InspectHeld? || InspectSource? || Move? || InspectMoved? || SyncMovedSource? || SyncMovedRun?
    }

    predicate Judges() { InspectLive? || ReadStat? || ReadBytes? }

    predicate Releases() {
      UnlinkSent? || UnlinkRestored? || Restore? || SyncRestored? || UnlinkMoved? || SyncHeldSource? || SyncHeldRun?
    }

    /** The private entry exists at this point. */
    predicate HasHeld() {
      InspectLive? || ReadStat? || ReadBytes? || UnlinkSent? || UnlinkRestored? || Restore? || SyncRestored? || UnlinkMoved?
    }
  }

  /** The locals of one `cleanup` call. */
  datatype Job = Job(artifact: Artifact, pc: Pc, held: Option<nat>, sourceChanged: bool)

  datatype Dir = SourceDir | RunDir(artifact: Artifact)

  datatype Report = NoReport | Cleaned(artifact: Artifact, sourceChanged: bool) | Pending(artifact: Artifact)

  /** `confirmed` is which artifacts the store has recorded as sent. */
  datatype State = State(disk: Disk, confirmed: set<Artifact>, copies: set<Artifact>, unsynced: set<Dir>,
                         job: Option<Job>, report: Report)

  datatype Action =
    | Confirm(artifact: Artifact)
    | Start(artifact: Artifact)
    | Advance
    | Abort
    | AgentPut(path: Path, ino: nat, version: Version)
    | AgentWrite(path: Path, version: Version)
    | AgentUnlink(path: Path)
    | AgentRename(path: Path, target: Path)
    | AgentLink(path: Path, target: Path)

  function Look(d: Disk, e: Entry): Option<nat> { if e in d.entries then Some(d.entries[e]) else None }

  function Goto(s: State, j: Job, pc: Pc): State { s.(job := Some(j.(pc := pc))) }

  function End(s: State, r: Report): State { s.(job := None, report := r) }

  /** The live entry passes the checks made before it is moved. */
  predicate Movable(x: Snapshot, d: Disk)
    requires d.Valid() && Live(x.fileName) in d.entries
  {
    var i := d.entries[Live(x.fileName)];
    d.versions[i].kind == File && d.Sole(Live(x.fileName)) && SameFile(x, i, d.versions[i])
  }

  /** Finding the quarantined file, or moving the live one there. */
  function OnQuarantine(x: Snapshot, s: State, j: Job): State
    requires s.disk.Valid() && j.pc.Quarantines()
  {
    var live, held := Live(x.fileName), Held(j.artifact);
    match j.pc
    case InspectHeld =>
      var found := Look(s.disk, held);
      Goto(s, j.(held := found), if found.None? then InspectSource else InspectLive)
    case InspectSource =>
      if live !in s.disk.entries then Goto(s, j, UnlinkCopy)
      else if Movable(x, s.disk) then Goto(s, j, Move)
      else Goto(s, j.(sourceChanged := true), UnlinkCopy)
    case Move =>
      if live !in s.disk.entries then Goto(s, j, InspectMoved)
      else
        var moved := s.disk.(entries := (s.disk.entries - {live})[held := s.disk.entries[live]]);
        Goto(s.(disk := moved, unsynced := s.unsynced + {SourceDir, RunDir(j.artifact)}), j, InspectMoved)
    case InspectMoved => Goto(s, j.(held := Look(s.disk, held)), SyncMovedSource)
    case SyncMovedSource => Goto(s.(unsynced := s.unsynced - {SourceDir}), j, SyncMovedRun)
    case SyncMovedRun =>
      Goto(s.(unsynced := s.unsynced - {RunDir(j.artifact)}), j, if j.held.Some? then InspectLive else UnlinkCopy)
  }

  /** Deciding what the quarantined file is. */
  function OnJudge(x: Snapshot, s: State, j: Job): State
    requires s.disk.Valid() && j.pc.Judges() && Held(j.artifact) in s.disk.entries
  {
    var i := s.disk.entries[Held(j.artifact)];
    var v := s.disk.versions[i];
    match j.pc
    case InspectLive =>
      if Look(s.disk, Live(x.fileName)) == Some(i) then Goto(s, j.(sourceChanged := true), UnlinkRestored)
      else Goto(s, j, ReadStat)
    case ReadStat =>
      if v.kind == File && s.disk.Sole(Held(j.artifact)) && v.safe then Goto(s, j, ReadBytes(v))
      else Goto(s, j.(sourceChanged := true), Restore)
    case ReadBytes(before) =>
      if v.size == before.size && v.mtime == before.mtime && SameFile(x, i, before) && v.content == x.content then
        Goto(s, j, UnlinkSent)
      else Goto(s, j.(sourceChanged := true), Restore)
  }

  /** Removing the private entry, after giving a changed file its name back. */
  function OnRelease(x: Snapshot, s: State, j: Job): State
    requires s.disk.Valid() && j.pc.Releases() && (j.pc.Restore? ==> Held(j.artifact) in s.disk.entries)
  {
    var live, held := Live(x.fileName), Held(j.artifact);
    match j.pc
    case UnlinkSent => Unheld(s, j)
    case UnlinkRestored => Unheld(s, j)
    case Restore =>
      if live !in s.disk.entries && s.disk.versions[s.disk.entries[held]].kind != Directory then
        Goto(s.(disk := s.disk.(entries := s.disk.entries[live := s.disk.entries[held]]),
                unsynced := s.unsynced + {SourceDir}), j, SyncRestored)
      else End(s, Pending(j.artifact))
    case SyncRestored => Goto(s.(unsynced := s.unsynced - {SourceDir}), j, UnlinkMoved)
    case UnlinkMoved => Unheld(s, j)
    case SyncHeldSource => Goto(s.(unsynced := s.unsynced - {SourceDir}), j, SyncHeldRun)
    case SyncHeldRun => Goto(s.(unsynced := s.unsynced - {RunDir(j.artifact)}), j, UnlinkCopy)
  }

  function Unheld(s: State, j: Job): State {
    Goto(s.(disk := s.disk.(entries := s.disk.entries - {Held(j.artifact)}),
            unsynced := s.unsynced + {RunDir(j.artifact)}), j, SyncHeldSource)
  }

  /** Dropping the spooled copy and acknowledging. */
  function OnFinish(s: State, j: Job): State
    requires j.pc.UnlinkCopy? || j.pc.SyncLastSource? || j.pc.SyncLastRun?
  {
    match j.pc
    case UnlinkCopy =>
      Goto(s.(copies := s.copies - {j.artifact}, unsynced := s.unsynced + {RunDir(j.artifact)}), j, SyncLastSource)
    case SyncLastSource => Goto(s.(unsynced := s.unsynced - {SourceDir}), j, SyncLastRun)
    case SyncLastRun =>
      End(s.(unsynced := s.unsynced - {RunDir(j.artifact)}), Cleaned(j.artifact, j.sourceChanged))
  }

  /** One step of the running cleanup, when the file system does not fail. */
  function OnAdvance(x: Snapshot, s: State, j: Job): State
    requires s.disk.Valid() && (j.pc.HasHeld() ==> Held(j.artifact) in s.disk.entries)
  {
    if j.pc.Quarantines() then OnQuarantine(x, s, j)
    else if j.pc.Judges() then OnJudge(x, s, j)
    else if j.pc.Releases() then OnRelease(x, s, j)
    else OnFinish(s, j)
  }

  /** What the agent does to its own paths; a new file takes an inode nothing names. */
  function OnAgent(d: Disk, a: Action): Disk
    requires d.Valid()
  {
    match a
    case AgentPut(p, i, v) =>
      if d.Reachable(i) then d else Disk(d.entries[Live(p) := i], d.versions[i := v])
    case AgentWrite(p, v) =>
      if Live(p) in d.entries then d.(versions := d.versions[d.entries[Live(p)] := v]) else d
    case AgentUnlink(p) => d.(entries := d.entries - {Live(p)})
    case AgentRename(p, q) =>
      if Live(p) in d.entries && p != q then
        d.(entries := (d.entries - {Live(p)})[Live(q) := d.entries[Live(p)]])
      else d
    case AgentLink(p, q) =>
      if Live(p) in d.entries && Live(q) !in d.entries then
        d.(entries := d.entries[Live(q) := d.entries[Live(p)]])
      else d
    case _ => d
  }

  /** The published manifests: every artifact cleanup may be asked about. */
  type Manifest = map<Artifact, Snapshot>

  function Step(m: Manifest, s: State, a: Action): State
    requires Inv(m, s)
  {
    match a
    case Confirm(artifact) => s.(confirmed := s.confirmed + {artifact})
    case Start(artifact) =>
      if s.job.None? && artifact in m && artifact in s.confirmed then s.(job := Some(Job(artifact, InspectHeld, None, false))) else s
    case Advance => if s.job.Some? then OnAdvance(m[s.job.value.artifact], s, s.job.value) else s
    case Abort => s.(job := None)
    case _ => s.(disk := OnAgent(s.disk, a))
  }

  // ---------- The invariant ----------

  /** What a running cleanup may rely on whatever the agent does meanwhile. */
  predicate JobFits(m: Manifest, d: Disk, j: Job)
    requires d.Valid()
  {
    && j.artifact in m
    && (j.pc.InspectSource? || j.pc.Move? ==> Held(j.artifact) !in d.entries)
    && (j.pc.SyncMovedSource? || j.pc.SyncMovedRun? || j.pc.InspectLive? ==> j.held == Look(d, Held(j.artifact)))
    && (j.pc.HasHeld() ==> Held(j.artifact) in d.entries)
    && (j.pc.ReadBytes? ==>
      && d.Sole(Held(j.artifact))
      && d.versions[d.entries[Held(j.artifact)]] == j.pc.before
      && j.pc.before.kind == File && j.pc.before.safe)
    && (j.pc.UnlinkSent? ==>
      && d.Sole(Held(j.artifact))
      && d.versions[d.entries[Held(j.artifact)]].kind == File && d.versions[d.entries[Held(j.artifact)]].safe
      && IsSent(m[j.artifact], d.entries[Held(j.artifact)], d.versions[d.entries[Held(j.artifact)]]))
  }

  predicate Inv(m: Manifest, s: State) {
    && s.disk.Valid()
    && (s.job.Some? ==>
      && JobFits(m, s.disk, s.job.value) && s.job.value.artifact in s.confirmed
      && (s.job.value.pc.SyncLastRun? ==> SourceDir !in s.unsynced))
  }

  lemma AgentKeepsInv(m: Manifest, d: Disk, a: Action, j: Job)
    requires d.Valid() && JobFits(m, d, j)
    ensures OnAgent(d, a).Valid() && JobFits(m, OnAgent(d, a), j)
  {}

  lemma QuarantineKeepsInv(m: Manifest, s: State, j: Job)
    requires Inv(m, s) && s.job == Some(j) && j.pc.Quarantines()
    ensures Inv(m, OnQuarantine(m[j.artifact], s, j))
  {}

  lemma JudgeKeepsInv(m: Manifest, s: State, j: Job)
    requires Inv(m, s) && s.job == Some(j) && j.pc.Judges()
    ensures Inv(m, OnJudge(m[j.artifact], s, j))
  {}

  lemma ReleaseKeepsInv(m: Manifest, s: State, j: Job)
    requires Inv(m, s) && s.job == Some(j) && j.pc.Releases()
    ensures Inv(m, OnRelease(m[j.artifact], s, j))
  {}

  lemma AdvanceKeepsInv(m: Manifest, s: State, j: Job)
    requires Inv(m, s) && s.job == Some(j)
    ensures Inv(m, OnAdvance(m[j.artifact], s, j))
  {
    if j.pc.Quarantines() { QuarantineKeepsInv(m, s, j); }
    else if j.pc.Judges() { JudgeKeepsInv(m, s, j); }
    else if j.pc.Releases() { ReleaseKeepsInv(m, s, j); }
  }

  lemma StepKeepsInv(m: Manifest, s: State, a: Action)
    requires Inv(m, s)
    ensures Inv(m, Step(m, s, a))
  {
    if s.job.Some? {
      AgentKeepsInv(m, s.disk, a, s.job.value);
      AdvanceKeepsInv(m, s, s.job.value);
    }
  }

  // ---------- No version is lost ----------

  /** The agent does not itself delete, replace or rewrite this file. */
  predicate Spares(d: Disk, a: Action, i: nat) {
    match a
    case AgentPut(p, _, _) => Look(d, Live(p)) != Some(i)
    case AgentWrite(p, _) => Look(d, Live(p)) != Some(i)
    case AgentUnlink(p) => Look(d, Live(p)) != Some(i)
    case AgentRename(p, q) => p == q || Look(d, Live(q)) != Some(i)
    case _ => true
  }

  /** The file is still there, unchanged; and once cleanup is about to drop the private entry
      of a file it has given back, the agent's own entry for it exists. */
  ghost predicate Kept(s: State, i: nat, v: Version) {
    && s.disk.Reachable(i) && i in s.disk.versions && s.disk.versions[i] == v
    && (s.job.Some? && (s.job.value.pc.UnlinkRestored? || s.job.value.pc.SyncRestored? || s.job.value.pc.UnlinkMoved?)
        && Look(s.disk, Held(s.job.value.artifact)) == Some(i)
        ==> s.disk.LiveInode(i))
  }

  /** No artifact that is confirmed sent is this version of this file. */
  ghost predicate Unconfirmed(m: Manifest, confirmed: set<Artifact>, i: nat, v: Version) {
    forall a :: a in m && a in confirmed ==> !IsSent(m[a], i, v)
  }

  lemma AgentSparesFile(d: Disk, a: Action, i: nat)
    requires d.Valid() && d.Reachable(i) && i in d.versions && Spares(d, a, i)
    ensures var t := OnAgent(d, a);
      && t.Reachable(i) && i in t.versions && t.versions[i] == d.versions[i]
      && (d.LiveInode(i) ==> t.LiveInode(i))
      && forall h :: Look(t, Held(h)) == Look(d, Held(h))
  {
    var t := OnAgent(d, a);
    var e :| e in d.entries && d.entries[e] == i;
    if a.AgentRename? && a.path != a.target && e == Live(a.path) {
      assert t.entries[Live(a.target)] == i;
    } else {
      assert e in t.entries && t.entries[e] == i;
    }
    if d.LiveInode(i) {
      var p :| Live(p) in d.entries && d.entries[Live(p)] == i;
      if a.AgentRename? && a.path != a.target && p == a.path {
        assert t.entries[Live(a.target)] == i;
      } else {
        assert Live(p) in t.entries && t.entries[Live(p)] == i;
      }
    }
  }

  lemma QuarantineKeepsFile(m: Manifest, s: State, j: Job, i: nat, v: Version)
    requires Inv(m, s) && s.job == Some(j) && j.pc.Quarantines() && Kept(s, i, v)
    ensures Kept(OnQuarantine(m[j.artifact], s, j), i, v)
  {
    var t := OnQuarantine(m[j.artifact], s, j);
    var e :| e in s.disk.entries && s.disk.entries[e] == i;
    if j.pc.Move? && e == Live(m[j.artifact].fileName) {
      assert t.disk.entries[Held(j.artifact)] == i;
    } else {
      assert e in t.disk.entries && t.disk.entries[e] == i;
    }
  }

  lemma JudgeKeepsFile(m: Manifest, s: State, j: Job, i: nat, v: Version)
    requires Inv(m, s) && s.job == Some(j) && j.pc.Judges() && Kept(s, i, v)
    ensures Kept(OnJudge(m[j.artifact], s, j), i, v)
  {
    var t := OnJudge(m[j.artifact], s, j);
    if t.job.Some? && t.job.value.pc.UnlinkRestored? && Look(s.disk, Held(j.artifact)) == Some(i) {
      assert s.disk.entries[Live(m[j.artifact].fileName)] == i;
    }
  }

  lemma ReleaseKeepsFile(m: Manifest, s: State, j: Job, i: nat, v: Version)
    requires Inv(m, s) && s.job == Some(j) && j.pc.Releases() && Kept(s, i, v) && Unconfirmed(m, s.confirmed, i, v)
    ensures Kept(OnRelease(m[j.artifact], s, j), i, v)
  {
    var t := OnRelease(m[j.artifact], s, j);
    var e :| e in s.disk.entries && s.disk.entries[e] == i;
    if e in t.disk.entries {
      assert t.disk.entries[e] == i;
    } else {
      var p :| Live(p) in s.disk.entries && s.disk.entries[Live(p)] == i;
      assert t.disk.entries[Live(p)] == i;
    }
    if t.job.Some? && t.job.value.pc.SyncRestored? && Look(t.disk, Held(j.artifact)) == Some(i) {
      assert t.disk.entries[Live(m[j.artifact].fileName)] == i;
    }
    if s.disk.LiveInode(i) {
      var p :| Live(p) in s.disk.entries && s.disk.entries[Live(p)] == i;
      assert Live(p) in t.disk.entries && t.disk.entries[Live(p)] == i;
    }
  }

  lemma StepKeepsFile(m: Manifest, s: State, a: Action, i: nat, v: Version)
    requires Inv(m, s) && Kept(s, i, v) && Unconfirmed(m, s.confirmed, i, v) && Spares(s.disk, a, i)
    ensures Kept(Step(m, s, a), i, v)
  {
    match a
    case Confirm(_) =>
    case Start(_) =>
    case Abort =>
    case Advance =>
      if s.job.Some? {
        var j := s.job.value;
        if j.pc.Quarantines() { QuarantineKeepsFile(m, s, j, i, v); }
        else if j.pc.Judges() { JudgeKeepsFile(m, s, j, i, v); }
        else if j.pc.Releases() { ReleaseKeepsFile(m, s, j, i, v); }
      }
    case _ => AgentSparesFile(s.disk, a, i);
  }

  function Run(m: Manifest, s: State, actions: seq<Action>): (t: State)
    requires Inv(m, s)
    ensures Inv(m, t)
    decreases |actions|
  {
    if actions == [] then s
    else
      StepKeepsInv(m, s, actions[0]);
      Run(m, Step(m, s, actions[0]), actions[1..])
  }

  predicate SparesAll(m: Manifest, s: State, actions: seq<Action>, i: nat)
    requires Inv(m, s)
    decreases |actions|
  {
    actions == [] ||
      (Spares(s.disk, actions[0], i)
        && (StepKeepsInv(m, s, actions[0]); SparesAll(m, Step(m, s, actions[0]), actions[1..], i)))
  }

  lemma {:induction false} ConfirmedGrows(m: Manifest, s: State, actions: seq<Action>)
    requires Inv(m, s)
    ensures s.confirmed <= Run(m, s, actions).confirmed
    decreases |actions|
  {
    if actions != [] {
      StepKeepsInv(m, s, actions[0]);
      ConfirmedGrows(m, Step(m, s, actions[0]), actions[1..]);
    }
  }

  lemma {:induction false} RunKeepsFile(m: Manifest, s: State, actions: seq<Action>, i: nat, v: Version)
    requires Inv(m, s) && Kept(s, i, v) && SparesAll(m, s, actions, i)
    requires Unconfirmed(m, Run(m, s, actions).confirmed, i, v)
    ensures Kept(Run(m, s, actions), i, v)
    decreases |actions|
  {
    ConfirmedGrows(m, s, actions);
    if actions != [] {
      StepKeepsInv(m, s, actions[0]);
      StepKeepsFile(m, s, actions[0], i, v);
      RunKeepsFile(m, Step(m, s, actions[0]), actions[1..], i, v);
    }
  }

  /** Before any cleanup ran: the agent's files and the spooled copies. */
  ghost predicate Initial(m: Manifest, s: State) {
    s.disk.Valid() && s.job.None? && (forall a :: Held(a) !in s.disk.entries) && s.confirmed == {} && s.copies == m.Keys
  }

  /** Conservation: take any run of cleanups, crashes, restarts and agent activity, any point of it,
      and any file the agent can see there. Whatever happens afterwards, unless its version is
      that of an artifact confirmed sent by the end, or the agent itself deletes or rewrites the
      file, it stays reachable, at a live path or in quarantine, with its inode and content. */
  lemma UnsentVersionsSurvive(m: Manifest, s0: State, before: seq<Action>, after: seq<Action>, i: nat)
    requires Initial(m, s0)
    requires var s := Run(m, s0, before);
      && s.disk.LiveInode(i) && i in s.disk.versions && SparesAll(m, s, after, i)
      && Unconfirmed(m, Run(m, s, after).confirmed, i, s.disk.versions[i])
    ensures var s := Run(m, s0, before);
      var t := Run(m, s, after);
      t.disk.Reachable(i) && i in t.disk.versions && t.disk.versions[i] == s.disk.versions[i]
  {
    var s := Run(m, s0, before);
    var p :| Live(p) in s.disk.entries && s.disk.entries[Live(p)] == i;
    assert s.disk.Reachable(i);
    RunKeepsFile(m, s, after, i, s.disk.versions[i]);
  }

  /** One step of cleanup never overwrites, rewrites or deletes a live file: every path keeps
      its entry, except that the artifact's own path may be moved into quarantine, or filled
      from quarantine when it was empty. Other runs' quarantined files are not touched. */
  lemma StepsNeverOverwrite(m: Manifest, s: State, p: Path, h: Artifact)
    requires Inv(m, s) && s.job.Some?
    ensures var a := s.job.value.artifact;
      var t := Step(m, s, Advance);
      && t.disk.versions == s.disk.versions
      && (Look(t.disk, Live(p)) == Look(s.disk, Live(p))
        || (p == m[a].fileName && Look(t.disk, Live(p)) == None && Look(t.disk, Held(a)) == Look(s.disk, Live(p)))
        || (p == m[a].fileName && Look(s.disk, Live(p)) == None && Look(t.disk, Live(p)) == Look(s.disk, Held(a))))
      && (h != a ==> Look(t.disk, Held(h)) == Look(s.disk, Held(h)))
  {}

  /** The only step that can remove a file's last entry, unless the file was given back to the
      agent's path first, is the one that has just found it to be the confirmed-sent version. */
  lemma OnlySentVersionsAreUnlinked(m: Manifest, s: State, i: nat)
    requires Inv(m, s) && s.job.Some? && s.disk.Reachable(i)
    ensures var j := s.job.value;
      || Step(m, s, Advance).disk.Reachable(i)
      || (Look(s.disk, Held(j.artifact)) == Some(i)
        && ((j.pc == UnlinkSent && IsSent(m[j.artifact], i, s.disk.versions[i]))
          || j.pc == UnlinkRestored || j.pc == UnlinkMoved))
  {
    var j := s.job.value;
    var t := Step(m, s, Advance);
    var e :| e in s.disk.entries && s.disk.entries[e] == i;
    if j.pc == Move && e == Live(m[j.artifact].fileName) {
      assert t.disk.entries[Held(j.artifact)] == i;
    } else if e in t.disk.entries {
      assert t.disk.entries[e] == i;
    }
  }

  /** An acknowledged cleanup has dropped its copy and synced every directory change it made. */
  lemma AcknowledgedIsDurable(m: Manifest, s: State, a: Artifact, changed: bool)
    requires Inv(m, s) && s.job.Some?
    requires var t := Step(m, s, Advance); t.job.None? && t.report == Cleaned(a, changed)
    ensures var t := Step(m, s, Advance);
      a == s.job.value.artifact && SourceDir !in t.unsynced && RunDir(a) !in t.unsynced
  {}

  // ---------- Every rerun finishes ----------

  /** What a cleanup leaves when neither the agent nor a crash interferes. */
  datatype Outcome = Outcome(entries: map<Entry, nat>, finished: bool, sourceChanged: bool)

  /** This entry's file passes every check and is the confirmed-sent version. */
  predicate Removable(x: Snapshot, d: Disk, e: Entry)
    requires d.Valid() && e in d.entries
  {
    var v := d.versions[d.entries[e]];
    v.kind == File && v.safe && d.Sole(e) && IsSent(x, d.entries[e], v)
  }

  /** The outcome when a file is already in quarantine. */
  function Judged(x: Snapshot, d: Disk, a: Artifact): Outcome
    requires d.Valid() && Held(a) in d.entries
  {
    var i := d.entries[Held(a)];
    if Look(d, Live(x.fileName)) == Some(i) then Outcome(d.entries - {Held(a)}, true, true)
    else if Removable(x, d, Held(a)) then Outcome(d.entries - {Held(a)}, true, false)
    else if Live(x.fileName) !in d.entries && d.versions[i].kind != Directory then
      Outcome(d.entries[Live(x.fileName) := i] - {Held(a)}, true, true)
    else Outcome(d.entries, false, true)
  }

  function Settled(x: Snapshot, d: Disk, a: Artifact): Outcome
    requires d.Valid()
  {
    if Held(a) in d.entries then Judged(x, d, a)
    else if Live(x.fileName) !in d.entries then Outcome(d.entries, true, false)
    else if Removable(x, d, Live(x.fileName)) then Outcome(d.entries - {Live(x.fileName)}, true, false)
    else Outcome(d.entries, true, true)
  }

  /** Where a running cleanup is heading from here, on a disk nobody else changes. */
  function Heading(x: Snapshot, d: Disk, j: Job): Outcome
    requires d.Valid() && (j.pc.HasHeld() ==> Held(j.artifact) in d.entries)
  {
    var live, held := Live(x.fileName), Held(j.artifact);
    match j.pc
    case InspectHeld => Settled(x, d, j.artifact)
    case InspectSource => Settled(x, d, j.artifact)
    case Move => Settled(x, d, j.artifact)
    case InspectMoved => if held in d.entries then Judged(x, d, j.artifact) else Outcome(d.entries, true, false)
    case SyncMovedSource => if held in d.entries then Judged(x, d, j.artifact) else Outcome(d.entries, true, false)
    case SyncMovedRun => if held in d.entries then Judged(x, d, j.artifact) else Outcome(d.entries, true, false)
    case InspectLive => Judged(x, d, j.artifact)
    case ReadStat => Judged(x, d, j.artifact)
    case ReadBytes(_) => Judged(x, d, j.artifact)
    case UnlinkSent => Outcome(d.entries - {held}, true, false)
    case UnlinkRestored => Outcome(d.entries - {held}, true, true)
    case Restore =>
      if live !in d.entries && d.versions[d.entries[held]].kind != Directory then
        Outcome(d.entries[live := d.entries[held]] - {held}, true, true)
      else Outcome(d.entries, false, true)
    case SyncRestored => Outcome(d.entries - {held}, true, true)
    case UnlinkMoved => Outcome(d.entries - {held}, true, true)
    case _ => Outcome(d.entries, true, j.sourceChanged)
  }

  /** What the job has seen is still so. */
  predicate UpToDate(x: Snapshot, d: Disk, j: Job)
    requires d.Valid() && (j.pc.HasHeld() ==> Held(j.artifact) in d.entries)
  {
    var live, held := Live(x.fileName), Held(j.artifact);
    && (j.pc.Quarantines() || j.pc.Judges() ==> !j.sourceChanged)
    && (j.pc.Move? ==> live in d.entries && Movable(x, d))
    && (j.pc.InspectMoved? || j.pc.SyncMovedSource? || j.pc.SyncMovedRun? ==> held in d.entries)
    && (j.pc.ReadStat? || j.pc.ReadBytes? || j.pc.Restore? ==> Look(d, live) != Some(d.entries[held]))
    && (j.pc.Restore? ==> !Removable(x, d, held))
    && (j.pc.UnlinkRestored? || j.pc.Restore? || j.pc.SyncRestored? || j.pc.UnlinkMoved? ==> j.sourceChanged)
    && (j.pc.UnlinkRestored? || j.pc.SyncRestored? || j.pc.UnlinkMoved? ==> Look(d, live) == Look(d, held))
    && (j.pc.UnlinkSent? ==> !j.sourceChanged)
    && (j.pc.SyncHeldSource? || j.pc.SyncHeldRun? || j.pc.UnlinkCopy? || j.pc.SyncLastSource? || j.pc.SyncLastRun?
      ==> held !in d.entries)
  }

  function Rank(s: State): nat {
    if s.job.None? then 0
    else
      match s.job.value.pc
      case InspectHeld => 17 case InspectSource => 16 case Move => 15 case InspectMoved => 14
      case SyncMovedSource => 13 case SyncMovedRun => 12 case InspectLive => 11 case ReadStat => 10
      case ReadBytes(_) => 9 case UnlinkSent => 8 case UnlinkRestored => 8 case Restore => 8
      case SyncRestored => 7 case UnlinkMoved => 6 case SyncHeldSource => 5 case SyncHeldRun => 4
      case UnlinkCopy => 3 case SyncLastSource => 2 case SyncLastRun => 1
  }

  lemma QuarantineHeads(m: Manifest, s: State, j: Job)
    requires Inv(m, s) && s.job == Some(j) && j.pc.Quarantines() && UpToDate(m[j.artifact], s.disk, j)
    ensures var t := OnQuarantine(m[j.artifact], s, j);
      && Inv(m, t) && t.job.Some? && t.job.value.artifact == j.artifact && Rank(t) < Rank(s)
      && UpToDate(m[j.artifact], t.disk, t.job.value)
      && Heading(m[j.artifact], t.disk, t.job.value) == Heading(m[j.artifact], s.disk, j)
      && t.copies == s.copies
  {
    QuarantineKeepsInv(m, s, j);
  }

  lemma JudgeHeads(m: Manifest, s: State, j: Job)
    requires Inv(m, s) && s.job == Some(j) && j.pc.Judges() && UpToDate(m[j.artifact], s.disk, j)
    ensures var t := OnJudge(m[j.artifact], s, j);
      && Inv(m, t) && t.job.Some? && t.job.value.artifact == j.artifact && Rank(t) < Rank(s)
      && UpToDate(m[j.artifact], t.disk, t.job.value)
      && Heading(m[j.artifact], t.disk, t.job.value) == Heading(m[j.artifact], s.disk, j)
      && t.copies == s.copies
  {
    JudgeKeepsInv(m, s, j);
  }

  lemma ReleaseHeads(m: Manifest, s: State, j: Job)
    requires Inv(m, s) && s.job == Some(j) && j.pc.Releases() && UpToDate(m[j.artifact], s.disk, j)
    ensures var t := OnRelease(m[j.artifact], s, j);
      && Inv(m, t) && Rank(t) < Rank(s) && t.copies == s.copies
      && (t.job.Some? ==>
        && t.job.value.artifact == j.artifact && UpToDate(m[j.artifact], t.disk, t.job.value)
        && Heading(m[j.artifact], t.disk, t.job.value) == Heading(m[j.artifact], s.disk, j))
      && (t.job.None? ==>
        && t.report == Pending(j.artifact) && t.disk == s.disk
        && Heading(m[j.artifact], s.disk, j) == Outcome(s.disk.entries, false, true))
  {
    ReleaseKeepsInv(m, s, j);
  }

  /** Cleanup left alone: it advances until it returns. */
  function Finish(m: Manifest, s: State): (t: State)
    requires Inv(m, s)
    ensures Inv(m, t) && t.job.None?
    decreases Rank(s)
  {
    if s.job.None? then s
    else
      StepKeepsInv(m, s, Advance);
      RankFalls(m, s);
      Finish(m, Step(m, s, Advance))
  }

  lemma RankFalls(m: Manifest, s: State)
    requires Inv(m, s) && s.job.Some?
    ensures Rank(Step(m, s, Advance)) < Rank(s)
  {}

  lemma FinishHeads(m: Manifest, s: State, j: Job)
    requires Inv(m, s) && s.job == Some(j) && !j.pc.Quarantines() && !j.pc.Judges() && !j.pc.Releases()
    requires UpToDate(m[j.artifact], s.disk, j)
    ensures var t := OnFinish(s, j);
      && Inv(m, t) && t.disk == s.disk
      && (t.job.Some? ==>
        && t.job.value.artifact == j.artifact && UpToDate(m[j.artifact], t.disk, t.job.value)
        && Heading(m[j.artifact], t.disk, t.job.value) == Heading(m[j.artifact], s.disk, j))
      && (t.job.None? ==> t.report == Cleaned(j.artifact, j.sourceChanged))
  {}

  /** One undisturbed step keeps what the job knows true and its destination the same. */
  lemma StepHeads(m: Manifest, s: State, j: Job)
    requires Inv(m, s) && s.job == Some(j) && UpToDate(m[j.artifact], s.disk, j)
    ensures var t := Step(m, s, Advance);
      && Inv(m, t)
      && (t.job.Some? ==>
        && t.job.value.artifact == j.artifact && UpToDate(m[j.artifact], t.disk, t.job.value)
        && Heading(m[j.artifact], t.disk, t.job.value) == Heading(m[j.artifact], s.disk, j))
      && (t.job.None? ==>
        && t.disk == s.disk
        && Heading(m[j.artifact], s.disk, j).entries == s.disk.entries
        && t.report == (if j.pc.Restore? then Pending(j.artifact) else Cleaned(j.artifact, j.sourceChanged))
        && Heading(m[j.artifact], s.disk, j).finished == !j.pc.Restore?)
  {
    if j.pc.Quarantines() { QuarantineHeads(m, s, j); }
    else if j.pc.Judges() { JudgeHeads(m, s, j); }
    else if j.pc.Releases() { ReleaseHeads(m, s, j); }
    else { FinishHeads(m, s, j); }
  }

  lemma StepKeepsCopies(m: Manifest, s: State)
    requires Inv(m, s) && s.job.Some?
    ensures var j := s.job.value;
      Step(m, s, Advance).copies == if j.pc.UnlinkCopy? then s.copies - {j.artifact} else s.copies
    ensures var t := Step(m, s, Advance);
      (t.job.Some? && (t.job.value.pc.SyncLastSource? || t.job.value.pc.SyncLastRun?)) ==>
        s.job.value.pc.UnlinkCopy? || s.job.value.pc.SyncLastSource?
    ensures s.job.value.pc.UnlinkCopy? ==>
      var t := Step(m, s, Advance); t.job.Some? && t.job.value.pc.SyncLastSource?
  {}

  lemma {:induction false} FinishReachesHeading(m: Manifest, s: State)
    requires Inv(m, s) && s.job.Some? && UpToDate(m[s.job.value.artifact], s.disk, s.job.value)
    requires s.job.value.pc.SyncLastSource? || s.job.value.pc.SyncLastRun? ==> s.job.value.artifact !in s.copies
    ensures var a := s.job.value.artifact;
      var goal := Heading(m[a], s.disk, s.job.value);
      var t := Finish(m, s);
      && t.disk == s.disk.(entries := goal.entries)
      && t.report == (if goal.finished then Cleaned(a, goal.sourceChanged) else Pending(a))
      && t.copies == (if goal.finished then s.copies - {a} else s.copies)
      && (goal.finished ==> Held(a) !in t.disk.entries)
    decreases Rank(s)
  {
    StepHeads(m, s, s.job.value);
    RankFalls(m, s);
    StepKeepsCopies(m, s);
    var t := Step(m, s, Advance);
    if t.job.Some? {
      FinishReachesHeading(m, t);
    }
  }

  /** A cleanup that starts on any reachable disk and is left alone acknowledges, or reports
      pending and changes nothing; `Settled` says which and with what entries. */
  lemma RerunSettles(m: Manifest, s: State, a: Artifact)
    requires Inv(m, s) && s.job.None? && a in m && a in s.confirmed
    ensures Inv(m, Step(m, s, Start(a)))
    ensures var goal := Settled(m[a], s.disk, a);
      var t := Finish(m, Step(m, s, Start(a)));
      && t.disk == s.disk.(entries := goal.entries)
      && t.report == (if goal.finished then Cleaned(a, goal.sourceChanged) else Pending(a))
      && t.copies == (if goal.finished then s.copies - {a} else s.copies)
      && (goal.finished ==> Held(a) !in t.disk.entries)
  {
    StepKeepsInv(m, s, Start(a));
    FinishReachesHeading(m, Step(m, s, Start(a)));
  }

  /** Pending means: a quarantined file that is not the sent version cannot be given back,
      because another file occupies its path or because it is a directory. */
  lemma PendingExactlyWhenBlocked(m: Manifest, s: State, a: Artifact)
    requires Inv(m, s) && s.job.None? && a in m && a in s.confirmed
    ensures Inv(m, Step(m, s, Start(a)))
    ensures var d := s.disk;
      Finish(m, Step(m, s, Start(a))).report == Pending(a) <==>
        && Held(a) in d.entries
        && !Removable(m[a], d, Held(a))
        && Look(d, Live(m[a].fileName)) != Look(d, Held(a))
        && (Live(m[a].fileName) in d.entries || d.versions[d.entries[Held(a)]].kind == Directory)
  {
    RerunSettles(m, s, a);
  }

  // ---------- A crash anywhere replays to the same end ----------

  /** Both entries name the sent file, so only the interrupted attempt knows it was given back. */
  predicate Ambiguous(x: Snapshot, d: Disk, a: Artifact)
    requires d.Valid()
  {
    && Held(a) in d.entries && Look(d, Live(x.fileName)) == Look(d, Held(a))
    && Removable(x, d.(entries := d.entries - {Held(a)}), Live(x.fileName))
  }

  /** Starting over now would end as this attempt is going to. */
  predicate Replayable(x: Snapshot, d: Disk, a: Artifact, j: Option<Job>)
    requires d.Valid()
  {
    && !Ambiguous(x, d, a)
    && ((j.Some? && Rank(State(d, {}, {}, {}, j, NoReport)) <= 5) ==>
      Live(x.fileName) in d.entries ==> !Removable(x, d, Live(x.fileName)))
  }

  predicate SameEnd(p: Outcome, q: Outcome) { p.entries == q.entries && p.finished == q.finished }

  lemma ReplayableHeads(m: Manifest, s: State, j: Job)
    requires Inv(m, s) && s.job == Some(j) && UpToDate(m[j.artifact], s.disk, j)
    requires Replayable(m[j.artifact], s.disk, j.artifact, s.job)
    ensures SameEnd(Settled(m[j.artifact], s.disk, j.artifact), Heading(m[j.artifact], s.disk, j))
  {}

  lemma QuarantineReplays(m: Manifest, s: State, j: Job)
    requires Inv(m, s) && s.job == Some(j) && j.pc.Quarantines() && UpToDate(m[j.artifact], s.disk, j)
    requires Replayable(m[j.artifact], s.disk, j.artifact, s.job)
    ensures var t := OnQuarantine(m[j.artifact], s, j);
      Inv(m, t) && Replayable(m[j.artifact], t.disk, j.artifact, t.job)
  {
    QuarantineKeepsInv(m, s, j);
  }

  lemma ReleaseReplays(m: Manifest, s: State, j: Job)
    requires Inv(m, s) && s.job == Some(j) && j.pc.Releases() && UpToDate(m[j.artifact], s.disk, j)
    requires Replayable(m[j.artifact], s.disk, j.artifact, s.job)
    ensures var t := OnRelease(m[j.artifact], s, j);
      Inv(m, t) && Replayable(m[j.artifact], t.disk, j.artifact, t.job)
  {
    ReleaseKeepsInv(m, s, j);
    var x, d := m[j.artifact], s.disk;
    var live, held := Live(x.fileName), Held(j.artifact);
    if j.pc.Restore? && live !in d.entries {
      var restored := d.(entries := d.entries[live := d.entries[held]]);
      var returned := restored.(entries := restored.entries - {held});
      if !Removable(x, d, held) && returned.Sole(live) {
        forall e | e in d.entries && d.entries[e] == d.entries[held] ensures e == held {
          assert e == held || Look(returned, e) == Look(returned, live);
        }
      }
      assert !Removable(x, returned, live);
    }
  }

  lemma StepReplays(m: Manifest, s: State, j: Job)
    requires Inv(m, s) && s.job == Some(j) && UpToDate(m[j.artifact], s.disk, j)
    requires Replayable(m[j.artifact], s.disk, j.artifact, s.job)
    ensures var t := Step(m, s, Advance);
      Inv(m, t) && Replayable(m[j.artifact], t.disk, j.artifact, t.job)
  {
    StepKeepsInv(m, s, Advance);
    if j.pc.Quarantines() { QuarantineReplays(m, s, j); }
    else if j.pc.Releases() { ReleaseReplays(m, s, j); }
  }

  /** The agent stays quiet while the attempt takes some more steps. */
  function AdvanceTimes(m: Manifest, s: State, n: nat): (t: State)
    requires Inv(m, s)
    ensures Inv(m, t)
    decreases n
  {
    if n == 0 then s
    else
      StepKeepsInv(m, s, Advance);
      AdvanceTimes(m, Step(m, s, Advance), n - 1)
  }

  lemma {:induction false} ReplayAfterSteps(m: Manifest, s: State, a: Artifact, n: nat)
    requires Inv(m, s) && a in m
    requires s.job.Some? ==> s.job.value.artifact == a && UpToDate(m[a], s.disk, s.job.value)
    requires Replayable(m[a], s.disk, a, s.job)
    ensures var t := AdvanceTimes(m, s, n);
      SameEnd(Settled(m[a], t.disk, a),
        if s.job.Some? then Heading(m[a], s.disk, s.job.value) else Settled(m[a], s.disk, a))
    decreases n
  {
    if s.job.Some? {
      var j := s.job.value;
      ReplayableHeads(m, s, j);
      if n > 0 {
        StepHeads(m, s, j);
        StepReplays(m, s, j);
        ReplayAfterSteps(m, Step(m, s, Advance), a, n - 1);
      }
    } else if n > 0 {
      ReplayAfterSteps(m, s, a, n - 1);
    }
  }

  /** Killing a cleanup after any number of its steps and starting over ends with the same
      directory entries as letting it run, and is pending in the same cases. */
  lemma CrashReplayConverges(m: Manifest, s: State, a: Artifact, n: nat)
    requires Inv(m, s) && s.job.None? && a in m && a in s.confirmed && !Ambiguous(m[a], s.disk, a)
    ensures Inv(m, Step(m, s, Start(a)))
    ensures var s1 := Step(m, s, Start(a));
      var crashed := Step(m, AdvanceTimes(m, s1, n), Abort);
      && Inv(m, Step(m, crashed, Start(a)))
      && Finish(m, Step(m, crashed, Start(a))).disk == Finish(m, s1).disk
      && (Finish(m, Step(m, crashed, Start(a))).report == Pending(a) <==> Finish(m, s1).report == Pending(a))
  {
    var s1 := Step(m, s, Start(a));
    StepKeepsInv(m, s, Start(a));
    var crashed := Step(m, AdvanceTimes(m, s1, n), Abort);
    ReplayAfterSteps(m, s1, a, n);
    AdvanceKeepsVersions(m, s1, n);
    RerunSettles(m, s, a);
    RerunSettles(m, crashed, a);
  }

  lemma {:induction false} AdvanceKeepsVersions(m: Manifest, s: State, n: nat)
    requires Inv(m, s)
    ensures AdvanceTimes(m, s, n).disk.versions == s.disk.versions && AdvanceTimes(m, s, n).confirmed == s.confirmed
    decreases n
  {
    if n > 0 {
      StepKeepsInv(m, s, Advance);
      if s.job.Some? { StepsNeverOverwrite(m, s, "", ""); }
      AdvanceKeepsVersions(m, Step(m, s, Advance), n - 1);
    }
  }

  /** The guard is exact: with both entries naming the sent file, a crash after the private
      one is gone makes the replay take the live one too. */
  lemma AmbiguousReplayDiffers(m: Manifest, s: State, a: Artifact)
    requires Inv(m, s) && s.job.None? && a in m && a in s.confirmed && Ambiguous(m[a], s.disk, a)
    ensures Inv(m, Step(m, s, Start(a)))
    ensures var s1 := Step(m, s, Start(a));
      var crashed := Step(m, AdvanceTimes(m, s1, 3), Abort);
      && Live(m[a].fileName) in Finish(m, s1).disk.entries
      && Inv(m, Step(m, crashed, Start(a)))
      && Live(m[a].fileName) !in Finish(m, Step(m, crashed, Start(a))).disk.entries
  {
    StepKeepsInv(m, s, Start(a));
    var s1 := Step(m, s, Start(a));
    StepKeepsInv(m, s1, Advance);
    var s2 := Step(m, s1, Advance);
    StepKeepsInv(m, s2, Advance);
    var s3 := Step(m, s2, Advance);
    StepKeepsInv(m, s3, Advance);
    var s4 := Step(m, s3, Advance);
    assert s3.job.value.pc == UnlinkRestored;
    assert AdvanceTimes(m, s1, 3) == AdvanceTimes(m, s2, 2) == AdvanceTimes(m, s3, 1) == AdvanceTimes(m, s4, 0);
    RerunSettles(m, s, a);
    RerunSettles(m, Step(m, s4, Abort), a);
  }

  // ---------- The ambiguous disk is reached ----------

  ghost predicate Reaches(m: Manifest, s0: State, t: State) {
    Inv(m, s0) && exists actions :: Run(m, s0, actions) == t
  }

  lemma {:induction false} RunAppends(m: Manifest, s: State, actions: seq<Action>, a: Action)
    requires Inv(m, s)
    ensures Inv(m, Run(m, s, actions)) && Run(m, s, actions + [a]) == Step(m, Run(m, s, actions), a)
    decreases |actions|
  {
    if actions == [] {
      assert ([] + [a])[1..] == [];
      StepKeepsInv(m, s, a);
      assert Run(m, s, [a]) == Run(m, Step(m, s, a), []);
    } else {
      assert (actions + [a])[1..] == actions[1..] + [a];
      StepKeepsInv(m, s, actions[0]);
      RunAppends(m, Step(m, s, actions[0]), actions[1..], a);
    }
  }

  lemma ReachesOneMore(m: Manifest, s0: State, s: State, a: Action)
    requires Reaches(m, s0, s)
    ensures Inv(m, s) && Reaches(m, s0, Step(m, s, a))
  {
    var actions :| Run(m, s0, actions) == s;
    RunAppends(m, s0, actions, a);
  }

  /** One artifact, whose file stands at its path as it was sent. */
  function SentFile(x: Snapshot, a: Artifact): State {
    State(Disk(map[Live(x.fileName) := x.ino], map[x.ino := Version(File, x.size, x.mtime, true, x.content)]),
      {}, {a}, {}, None, NoReport)
  }

  /** That artifact confirmed, its cleanup at this point, and these entries for its file. */
  function Attempt(x: Snapshot, a: Artifact, entries: map<Entry, nat>, unsynced: set<Dir>, job: Option<Job>): State {
    State(Disk(entries, SentFile(x, a).disk.versions), {a}, {a}, unsynced, job, NoReport)
  }

  /** Cleanup decides to move the file, and the agent links it elsewhere just before. */
  lemma LinkedBeforeTheMove(x: Snapshot, a: Artifact, other: Path)
    requires other != x.fileName
    ensures Reaches(map[a := x], SentFile(x, a),
      Attempt(x, a, map[Live(x.fileName) := x.ino, Live(other) := x.ino], {}, Some(Job(a, Move, None, false))))
  {
    var m, s := map[a := x], SentFile(x, a);
    assert Run(m, s, []) == s;
    ReachesOneMore(m, s, s, Confirm(a));
    var confirmed := Attempt(x, a, map[Live(x.fileName) := x.ino], {}, None);
    ReachesOneMore(m, s, confirmed, Start(a));
    var started := confirmed.(job := Some(Job(a, InspectHeld, None, false)));
    ReachesOneMore(m, s, started, Advance);
    var looked := confirmed.(job := Some(Job(a, InspectSource, None, false)));
    ReachesOneMore(m, s, looked, Advance);
    var decided := confirmed.(job := Some(Job(a, Move, None, false)));
    ReachesOneMore(m, s, decided, AgentLink(x.fileName, other));
  }

  /** The two names the file has once it was moved. */
  function Split(x: Snapshot, a: Artifact, other: Path): map<Entry, nat> { map[Held(a) := x.ino, Live(other) := x.ino] }

  lemma MovedAnyway(x: Snapshot, a: Artifact, other: Path)
    requires other != x.fileName
    ensures Reaches(map[a := x], SentFile(x, a),
      Attempt(x, a, Split(x, a, other), {SourceDir, RunDir(a)}, Some(Job(a, SyncMovedSource, Some(x.ino), false))))
  {
    var m, s := map[a := x], SentFile(x, a);
    LinkedBeforeTheMove(x, a, other);
    var linked := Attempt(x, a, map[Live(x.fileName) := x.ino, Live(other) := x.ino], {}, Some(Job(a, Move, None, false)));
    ReachesOneMore(m, s, linked, Advance);
    var moved := Attempt(x, a, Split(x, a, other), {SourceDir, RunDir(a)}, Some(Job(a, InspectMoved, None, false)));
    assert linked.disk.entries - {Live(x.fileName)} == map[Live(other) := x.ino];
    ReachesOneMore(m, s, moved, Advance);
  }

  lemma MoveIsSynced(x: Snapshot, a: Artifact, other: Path)
    requires other != x.fileName
    ensures Reaches(map[a := x], SentFile(x, a),
      Attempt(x, a, Split(x, a, other), {}, Some(Job(a, InspectLive, Some(x.ino), false))))
  {
    var m, s := map[a := x], SentFile(x, a);
    MovedAnyway(x, a, other);
    var found := Attempt(x, a, Split(x, a, other), {SourceDir, RunDir(a)}, Some(Job(a, SyncMovedSource, Some(x.ino), false)));
    ReachesOneMore(m, s, found, Advance);
    var half := Attempt(x, a, Split(x, a, other), {RunDir(a)}, Some(Job(a, SyncMovedRun, Some(x.ino), false)));
    ReachesOneMore(m, s, half, Advance);
  }

  /** A moved file with two names is not the sent version, and goes back. */
  lemma MovedBack(x: Snapshot, a: Artifact, other: Path)
    requires other != x.fileName
    ensures Reaches(map[a := x], SentFile(x, a),
      Attempt(x, a, Split(x, a, other), {}, Some(Job(a, Restore, Some(x.ino), true))))
  {
    var m, s := map[a := x], SentFile(x, a);
    MoveIsSynced(x, a, other);
    var synced := Attempt(x, a, Split(x, a, other), {}, Some(Job(a, InspectLive, Some(x.ino), false)));
    ReachesOneMore(m, s, synced, Advance);
    var absent := synced.(job := Some(Job(a, ReadStat, Some(x.ino), false)));
    ReachesOneMore(m, s, absent, Advance);
    assert Live(other) in synced.disk.entries && synced.disk.entries[Live(other)] == synced.disk.entries[Held(a)];
  }

  /** The disk after that, the attempt dead and the agent's link dropped. */
  function Both(x: Snapshot, a: Artifact): State {
    Attempt(x, a, map[Held(a) := x.ino, Live(x.fileName) := x.ino], {SourceDir}, None)
  }

  /** Cleanup has given the file back, beside the agent's link. */
  function Restored(x: Snapshot, a: Artifact, other: Path): State {
    Attempt(x, a, map[Held(a) := x.ino, Live(other) := x.ino, Live(x.fileName) := x.ino], {SourceDir},
      Some(Job(a, SyncRestored, Some(x.ino), true)))
  }

  lemma RestoredIsReached(x: Snapshot, a: Artifact, other: Path)
    requires other != x.fileName
    ensures Reaches(map[a := x], SentFile(x, a), Restored(x, a, other))
  {
    MovedBack(x, a, other);
    var back := Attempt(x, a, Split(x, a, other), {}, Some(Job(a, Restore, Some(x.ino), true)));
    ReachesOneMore(map[a := x], SentFile(x, a), back, Advance);
  }

  lemma BothIsReached(x: Snapshot, a: Artifact, other: Path)
    requires other != x.fileName
    ensures Reaches(map[a := x], SentFile(x, a), Both(x, a))
  {
    var m, s, restored := map[a := x], SentFile(x, a), Restored(x, a, other);
    RestoredIsReached(x, a, other);
    ReachesOneMore(m, s, restored, Abort);
    ReachesOneMore(m, s, restored.(job := None), AgentUnlink(other));
    assert restored.disk.entries - {Live(other)} == Both(x, a).disk.entries;
  }

  /** The exception to replay is a real disk: the agent links the file between cleanup's look and
      its move, cleanup gives the file back and dies, and the agent drops its link. */
  lemma AmbiguousIsReached(x: Snapshot, a: Artifact, other: Path)
    requires other != x.fileName
    ensures Initial(map[a := x], SentFile(x, a)) && Reaches(map[a := x], SentFile(x, a), Both(x, a))
    ensures Both(x, a).job.None? && Inv(map[a := x], Both(x, a)) && Ambiguous(x, Both(x, a).disk, a)
  {
    BothIsReached(x, a, other);
    assert Both(x, a).disk.entries - {Held(a)} == map[Live(x.fileName) := x.ino];
  }
}
