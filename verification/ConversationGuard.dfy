/** The conversation guard (src/core/conversation-guard.mjs): native turns of a conversation
    share it, cleanup has it alone.

    An operation is entered in one synchronous stretch; what it then awaits, and whether it
    fails, is up to the environment. Operations are named by tokens. */
module ConversationGuard {
  import opened Prelude

  /** One map entry; `inside` and `waiting` name the native operations it counts. */
  datatype Entry = Entry(native: nat, cleanup: bool)

  datatype Occupancy = Occupancy(inside: set<nat>, waiting: set<nat>, cleaning: bool)

  datatype Action =
    | EnterNative(id: string, op: nat)
    | Wake(id: string, op: nat)
    | LeaveNative(id: string, op: nat)
    | EnterCleanup(id: string)
    | LeaveCleanup(id: string)

  /** Who is where, by conversation. */
  datatype State = State(entries: map<string, Entry>, held: map<string, Occupancy>)

  function EntryOf(s: State, id: string): Entry { if id in s.entries then s.entries[id] else Entry(0, false) }

  function HeldBy(s: State, id: string): Occupancy { if id in s.held then s.held[id] else Occupancy({}, {}, false) }

  /** `prune`: an entry nobody counts on is deleted. */
  function Put(s: State, id: string, e: Entry, o: Occupancy): State {
    State(if e.native == 0 && !e.cleanup then s.entries - {id} else s.entries[id := e], s.held[id := o])
  }

  function OnEnterNative(s: State, id: string, op: nat): State {
    var e, o := EntryOf(s, id), HeldBy(s, id);
    if op in o.inside || op in o.waiting then s
    else
      Put(s, id, e.(native := e.native + 1),
        if e.cleanup then o.(waiting := o.waiting + {op}) else o.(inside := o.inside + {op}))
  }

  /** The cleanup a native operation waited for has released it. */
  function OnWake(s: State, id: string, op: nat): State {
    var e, o := EntryOf(s, id), HeldBy(s, id);
    if op !in o.waiting || e.cleanup then s
    else s.(held := s.held[id := o.(waiting := o.waiting - {op}, inside := o.inside + {op})])
  }

  function OnLeaveNative(s: State, id: string, op: nat): State {
    var e, o := EntryOf(s, id), HeldBy(s, id);
    if op !in o.inside || e.native == 0 then s
    else Put(s, id, e.(native := e.native - 1), o.(inside := o.inside - {op}))
  }

  function OnEnterCleanup(s: State, id: string): State {
    var e := EntryOf(s, id);
    if e.native > 0 || e.cleanup then s else Put(s, id, e.(cleanup := true), HeldBy(s, id).(cleaning := true))
  }

  function OnLeaveCleanup(s: State, id: string): State {
    var e := EntryOf(s, id);
    if !e.cleanup then s else Put(s, id, e.(cleanup := false), HeldBy(s, id).(cleaning := false))
  }

  function Step(s: State, a: Action): State {
    match a
    case EnterNative(id, op) => OnEnterNative(s, id, op)
    case Wake(id, op) => OnWake(s, id, op)
    case LeaveNative(id, op) => OnLeaveNative(s, id, op)
    case EnterCleanup(id) => OnEnterCleanup(s, id)
    case LeaveCleanup(id) => OnLeaveCleanup(s, id)
  }

  function Run(s: State, actions: seq<Action>): State
    decreases |actions|
  {
    if actions == [] then s else Run(Step(s, actions[0]), actions[1..])
  }

  function Empty(): State { State(map[], map[]) }

  /** The counters count, and cleanup excludes everyone else. */
  predicate Fits(s: State, id: string) {
    var e, o := EntryOf(s, id), HeldBy(s, id);
    && e.native == |o.inside| + |o.waiting| && o.inside !! o.waiting
    && e.cleanup == o.cleaning
    && (o.cleaning ==> o.inside == {})
    && (id in s.entries <==> e.native > 0 || e.cleanup)
  }

  ghost predicate Inv(s: State) { forall id :: Fits(s, id) }

  lemma StepKeepsInv(s: State, a: Action)
    requires Inv(s)
    ensures Inv(Step(s, a))
  {
    var t := Step(s, a);
    var id := a.id;
    forall x
      ensures Fits(t, x)
    {
      assert Fits(s, x) && Fits(s, id);
    }
  }

  lemma {:induction false} RunKeepsInv(s: State, actions: seq<Action>)
    requires Inv(s)
    ensures Inv(Run(s, actions))
    decreases |actions|
  {
    if actions != [] {
      StepKeepsInv(s, actions[0]);
      RunKeepsInv(Step(s, actions[0]), actions[1..]);
    }
  }

  /** Cleanup and native work of a conversation never overlap, whatever fails and whenever; a
      native operation that queued behind cleanup goes in before any other cleanup can; and an
      idle guard holds no entries. */
  lemma CleanupIsExclusive(actions: seq<Action>, id: string)
    ensures var s := Run(Empty(), actions);
      var o := HeldBy(s, id);
      && !(o.cleaning && o.inside != {})
      && (o.waiting != {} || o.inside != {} || o.cleaning ==> Step(s, EnterCleanup(id)) == s)
      && (o.waiting == {} && o.inside == {} && !o.cleaning ==> id !in s.entries)
      && (!o.cleaning ==> forall op :: op in o.waiting ==> op in HeldBy(Step(s, Wake(id, op)), id).inside)
  {
    assert Inv(Empty());
    RunKeepsInv(Empty(), actions);
    assert Fits(Run(Empty(), actions), id);
  }

  /** The guard's map. `native` and `cleanup` are entered and left through these. */
  class Guard {
    var entries: map<string, Entry>
    ghost var held: map<string, Occupancy>

    ghost function Value(): State
      reads this
    {
      State(entries, held)
    }

    constructor ()
      ensures Value() == Empty()
    {
      entries, held := map[], map[];
    }

    method Prune(id: string)
      requires id in entries
      modifies this`entries
      ensures entries == if old(entries)[id].native == 0 && !old(entries)[id].cleanup then old(entries) - {id} else old(entries)
    {
      if entries[id].native == 0 && !entries[id].cleanup { entries := entries - {id}; }
    }

    /** Reserves first, so that a queued native operation wins over the next cleanup. */
    method EnterNative(id: string, op: nat) returns (waits: bool)
      requires op !in HeldBy(Value(), id).inside && op !in HeldBy(Value(), id).waiting
      modifies this
      ensures Value() == OnEnterNative(old(Value()), id, op)
      ensures waits == EntryOf(old(Value()), id).cleanup
    {
      ghost var o := HeldBy(Value(), id);
      if id !in entries { entries := entries[id := Entry(0, false)]; }
      var e := entries[id];
      entries := entries[id := e.(native := e.native + 1)];
      waits := e.cleanup;
      held := held[id := if waits then o.(waiting := o.waiting + {op}) else o.(inside := o.inside + {op})];
    }

    method LeaveNative(id: string, op: nat)
      requires op in HeldBy(Value(), id).inside && EntryOf(Value(), id).native > 0
      modifies this
      ensures Value() == OnLeaveNative(old(Value()), id, op)
    {
      ghost var o := HeldBy(Value(), id);
      entries := entries[id := entries[id].(native := entries[id].native - 1)];
      held := held[id := o.(inside := o.inside - {op})];
      Prune(id);
    }

    method EnterCleanup(id: string) returns (entered: bool)
      requires Inv(Value())
      modifies this
      ensures Value() == OnEnterCleanup(old(Value()), id)
      ensures entered <==> HeldBy(old(Value()), id) == Occupancy({}, {}, false)
    {
      assert Fits(Value(), id);
      ghost var o := HeldBy(Value(), id);
      if id in entries && (entries[id].native > 0 || entries[id].cleanup) { return false; }
      entries := entries[id := Entry(0, true)];
      held := held[id := o.(cleaning := true)];
      return true;
    }

    method LeaveCleanup(id: string)
      requires EntryOf(Value(), id).cleanup
      modifies this
      ensures Value() == OnLeaveCleanup(old(Value()), id)
    {
      ghost var o := HeldBy(Value(), id);
      entries := entries[id := entries[id].(cleanup := false)];
      held := held[id := o.(cleaning := false)];
      Prune(id);
    }
  }
}
