/** Claims whose COMMIT answer was lost (src/storage/store.mjs, `claim` and `recover`).

    Any number of claimers, one for each store and kind of work, share the rows. A claim is a
    transaction that locks the rows it takes and writes a fresh token on all of them; it may
    be decided before, after or without its client learning so. A process may end at any
    step, and other claimers take expired rows. */
module ClaimRecovery {
  import opened Prelude

  datatype Status = Ready | Running | Unknown | Settled

  datatype Row = Row(status: Status, owner: nat, token: nat, expires: int)

  /** A claim transaction that is not decided yet; its rows are locked. */
  datatype Tx = Tx(owner: nat, ids: seq<nat>, expires: int)

  /** One `claim` call. `lost` means its COMMIT answer is unknown and it stays on record until
      reconciled; `observed` holds the rows of a reconciling read. */
  datatype Call = Call(token: nat, ids: seq<nat>, expires: int, lost: bool, observed: Option<map<nat, Row>>)

  /** Work handed to a worker. */
  datatype Lease = Lease(id: nat, token: nat, expires: int)

  datatype State = State(now: int, rows: map<nat, Row>, txs: map<nat, Tx>, applied: set<nat>,
                         calls: map<nat, Call>, leases: set<Lease>, next: nat)

  datatype Action =
    | Tick(elapsed: nat)
    | Insert(id: nat)
    | Select(owner: nat, ids: seq<nat>, at: int, leaseMs: nat)
    | Decide(token: nat, applied: bool)
    | Answered(owner: nat)
    | AnswerLost(owner: nat)
    | ReadBack(owner: nat)
    | ReadFails(owner: nat)
    | Reconcile(owner: nat)
    | EndProcess(owner: nat)
    | Settle(lease: Lease, status: Status)
    | Reclassify(id: nat)

  predicate Distinct(ids: seq<nat>) { forall i, j :: 0 <= i < j < |ids| ==> ids[i] != ids[j] }

  predicate Locked(s: State, id: nat) { exists t :: t in s.txs && id in s.txs[t].ids }

  predicate Eligible(r: Row, at: int) {
    r.status == Ready || r.status == Unknown || (r.status == Running && r.expires <= at)
  }

  predicate Carries(r: Row, owner: nat, token: nat) { r.status == Running && r.owner == owner && r.token == token }

  function Matching(rows: map<nat, Row>, owner: nat, c: Call): seq<nat> { MatchingIn(rows, owner, c.token, c.ids) }

  function MatchingIn(rows: map<nat, Row>, owner: nat, token: nat, ids: seq<nat>): (r: seq<nat>)
    ensures |r| <= |ids|
    ensures |r| == |ids| <==> forall id :: id in ids ==> id in rows && Carries(rows[id], owner, token)
    ensures |r| == 0 <==> forall id :: id in ids ==> !(id in rows && Carries(rows[id], owner, token))
  {
    if ids == [] then []
    else if ids[0] in rows && Carries(rows[ids[0]], owner, token) then
      [ids[0]] + MatchingIn(rows, owner, token, ids[1..])
    else MatchingIn(rows, owner, token, ids[1..])
  }

  function LeasesOf(c: Call): set<Lease> { set id | id in c.ids :: Lease(id, c.token, c.expires) }

  function Write(rows: map<nat, Row>, token: nat, x: Tx): map<nat, Row> {
    map id | id in rows :: if id in x.ids then Row(Running, x.owner, token, x.expires) else rows[id]
  }

  // ---------- Steps ----------

  /** A new claim: only without an unreconciled one, on rows nobody has locked. */
  function OnSelect(s: State, owner: nat, ids: seq<nat>, at: int, leaseMs: nat): State {
    if owner in s.calls || ids == [] || !Distinct(ids) || at > s.now then s
    else if exists id :: id in ids && (id !in s.rows || Locked(s, id) || !Eligible(s.rows[id], at)) then s
    else
      s.(txs := s.txs[s.next := Tx(owner, ids, at + leaseMs)],
         calls := s.calls[owner := Call(s.next, ids, at + leaseMs, false, None)],
         next := s.next + 1)
  }

  function OnDecide(s: State, token: nat, applied: bool): State {
    if token !in s.txs then s
    else
      s.(txs := s.txs - {token},
         rows := if applied then Write(s.rows, token, s.txs[token]) else s.rows,
         applied := if applied then s.applied + {token} else s.applied)
  }

  function Close(s: State, owner: nat): State { s.(calls := s.calls - {owner}) }

  /** COMMIT, or its failure, is answered in time. */
  function OnAnswered(s: State, owner: nat): State {
    if owner !in s.calls || s.calls[owner].lost || s.calls[owner].token in s.txs then s
    else if s.calls[owner].token in s.applied then
      Close(s.(leases := s.leases + LeasesOf(s.calls[owner])), owner)
    else Close(s, owner)
  }

  function OnAnswerLost(s: State, owner: nat): State {
    if owner in s.calls then s.(calls := s.calls[owner := s.calls[owner].(lost := true)]) else s
  }

  /** The locking read of the original ids waits for whoever holds them. */
  function OnReadBack(s: State, owner: nat): State {
    if owner !in s.calls || !s.calls[owner].lost || (exists id :: id in s.calls[owner].ids && Locked(s, id)) then s
    else
      var c := s.calls[owner];
      var seen := map id | id in s.rows && id in c.ids :: s.rows[id];
      s.(calls := s.calls[owner := c.(observed := Some(seen))])
  }

  function Unobserved(s: State, owner: nat): State
    requires owner in s.calls
  {
    s.(calls := s.calls[owner := s.calls[owner].(observed := None)])
  }

  /** What `recover` does with the rows it read. */
  function OnReconcile(s: State, owner: nat): State {
    if owner !in s.calls || !s.calls[owner].lost || s.calls[owner].observed.None? then s
    else
      var c := s.calls[owner];
      var seen := c.observed.value;
      var matching := Matching(seen, owner, c);
      if |matching| == |c.ids| then
        if forall id :: id in c.ids ==> s.now < seen[id].expires then
          Close(s.(leases := s.leases + LeasesOf(c)), owner)
        else Close(s, owner)
      else if |matching| == 0 then Close(s, owner)
      else Unobserved(s, owner)
  }

  /** Settling needs the row's own unexpired token. */
  function OnSettle(s: State, l: Lease, status: Status): State {
    if l in s.leases && l.id in s.rows && s.rows[l.id].status == Running && s.rows[l.id].token == l.token
      && s.now < s.rows[l.id].expires && status != Running
    then s.(rows := s.rows[l.id := s.rows[l.id].(status := status)], leases := s.leases - {l})
    else s
  }

  function OnReclassify(s: State, id: nat): State {
    if id in s.rows && !Locked(s, id) && s.rows[id].status == Running && s.rows[id].expires <= s.now then
      s.(rows := s.rows[id := s.rows[id].(status := Unknown)])
    else s
  }

  function Step(s: State, a: Action): State {
    match a
    case Tick(elapsed) => s.(now := s.now + elapsed)
    case Insert(id) => if id in s.rows then s else s.(rows := s.rows[id := Row(Ready, 0, 0, 0)])
    case Select(owner, ids, at, leaseMs) => OnSelect(s, owner, ids, at, leaseMs)
    case Decide(token, applied) => OnDecide(s, token, applied)
    case Answered(owner) => OnAnswered(s, owner)
    case AnswerLost(owner) => OnAnswerLost(s, owner)
    case ReadBack(owner) => OnReadBack(s, owner)
    case ReadFails(owner) => if owner in s.calls then Unobserved(s, owner) else s
    case Reconcile(owner) => OnReconcile(s, owner)
    case EndProcess(owner) => Close(s, owner)
    case Settle(l, status) => OnSettle(s, l, status)
    case Reclassify(id) => OnReclassify(s, id)
  }

  function Run(s: State, actions: seq<Action>): State
    decreases |actions|
  {
    if actions == [] then s else Run(Step(s, actions[0]), actions[1..])
  }

  function Initial(now: int): State { State(now, map[], map[], {}, map[], {}, 1) }

  // ---------- The invariant ----------

  predicate Live(s: State, l: Lease) { l in s.leases && s.now < l.expires }

  predicate Holds(s: State, id: nat, token: nat, expires: int) {
    id in s.rows && s.rows[id].status == Running && s.rows[id].token == token && s.rows[id].expires == expires
  }

  predicate TxFits(s: State, t: nat)
    requires t in s.txs
  {
    && t < s.next && t !in s.applied && Distinct(s.txs[t].ids)
    && (forall id :: id in s.txs[t].ids ==> id in s.rows && Eligible(s.rows[id], s.now))
    && (forall l :: l in s.leases ==> l.token != t)
    && (forall u, id :: u in s.txs && u != t && id in s.txs[t].ids ==> id !in s.txs[u].ids)
  }

  /** A row written by a claim carries its owner; tokens not yet applied are on no row. */
  predicate RowFits(s: State, id: nat)
    requires id in s.rows
  {
    s.rows[id].status == Running ==> s.rows[id].token in s.applied
  }

  /** A claim nobody has been handed: applied to all its rows or to none, and while its lease
      lasts nothing takes them away. */
  predicate CallFits(s: State, o: nat)
    requires o in s.calls
  {
    var c := s.calls[o];
    && c.token < s.next && c.ids != []
    && (c.token in s.txs ==> s.txs[c.token] == Tx(o, c.ids, c.expires))
    && (forall l :: l in s.leases ==> l.token != c.token)
    && (forall p :: p in s.calls && p != o ==> s.calls[p].token != c.token)
    && (forall id :: id in s.rows && s.rows[id].status == Running && s.rows[id].token == c.token ==>
      s.rows[id].owner == o && s.rows[id].expires == c.expires)
    && (c.token in s.applied && s.now < c.expires ==> forall id :: id in c.ids ==> Holds(s, id, c.token, c.expires))
    && (c.observed.Some? ==> c.lost && c.token !in s.txs && SeenFits(s, c, o, c.observed.value))
  }

  /** What a reconciling read can have seen: the claim's rows only if it was applied, and then
      all of them while its lease lasts. */
  predicate SeenFits(s: State, c: Call, o: nat, seen: map<nat, Row>) {
    && (forall id :: id in seen && Carries(seen[id], o, c.token) ==> c.token in s.applied && seen[id].expires == c.expires)
    && (c.token in s.applied && s.now < c.expires ==>
      forall id :: id in c.ids ==> id in seen && Carries(seen[id], o, c.token))
  }

  /** Unexpired handed-out work is the row's own claim. */
  predicate LeaseFits(s: State, l: Lease) {
    && l.token in s.applied
    && (s.now < l.expires ==> Holds(s, l.id, l.token, l.expires))
    && (forall id :: id in s.rows && s.rows[id].status == Running && s.rows[id].token == l.token ==>
      s.rows[id].expires == l.expires)
  }

  predicate Inv(s: State) {
    && s.applied !! s.txs.Keys
    && (forall t :: t in s.applied ==> t < s.next)
    && (forall t :: t in s.txs ==> TxFits(s, t))
    && (forall id :: id in s.rows ==> RowFits(s, id))
    && (forall o :: o in s.calls ==> CallFits(s, o))
    && (forall l :: l in s.leases ==> LeaseFits(s, l))
  }

  // ---------- Every step keeps it ----------

  lemma TickKeepsInv(s: State, elapsed: nat)
    requires Inv(s)
    ensures Inv(s.(now := s.now + elapsed))
  {}

  lemma SelectKeepsInv(s: State, owner: nat, ids: seq<nat>, at: int, leaseMs: nat)
    requires Inv(s)
    ensures Inv(OnSelect(s, owner, ids, at, leaseMs))
  {
    var t := OnSelect(s, owner, ids, at, leaseMs);
    if t != s {
      forall o | o in t.calls
        ensures CallFits(t, o)
      {
        if o != owner { assert CallFits(s, o); }
        else {
          forall id | id in t.rows && t.rows[id].status == Running ensures t.rows[id].token != s.next {
            assert RowFits(s, id);
          }
          forall l | l in s.leases ensures l.token != s.next { assert LeaseFits(s, l); }
          forall p | p in s.calls ensures s.calls[p].token != s.next { assert CallFits(s, p); }
        }
      }
      forall l | l in t.leases ensures LeaseFits(t, l) { assert LeaseFits(s, l); }
      forall x | x in t.txs
        ensures TxFits(t, x)
      {
        forall l | l in s.leases ensures l.token != s.next { assert LeaseFits(s, l); }
        if x != s.next { assert TxFits(s, x); }
        else {
          forall u, id | u in s.txs && id in ids ensures id !in s.txs[u].ids {
            assert !Locked(s, id);
          }
        }
      }
    }
  }

  lemma WrittenCallFits(s: State, token: nat, o: nat)
    requires Inv(s) && token in s.txs && o in s.calls
    ensures CallFits(OnDecide(s, token, true), o)
  {
    var t := OnDecide(s, token, true);
    var c := s.calls[o];
    assert CallFits(s, o) && TxFits(s, token);
    forall id | id in c.ids && c.token in t.applied && t.now < c.expires
      ensures Holds(t, id, c.token, c.expires)
    {
      if c.token != token { assert Holds(s, id, c.token, c.expires); }
    }
    if c.observed.Some? { assert SeenFits(s, c, o, c.observed.value); }
  }

  lemma DecideKeepsInv(s: State, token: nat, applied: bool)
    requires Inv(s)
    ensures Inv(OnDecide(s, token, applied))
  {
    if token in s.txs {
      var t := OnDecide(s, token, applied);
      assert TxFits(s, token);
      forall o | o in t.calls
        ensures CallFits(t, o)
      {
        if applied { WrittenCallFits(s, token, o); } else { assert CallFits(s, o); }
      }
      forall l | l in t.leases ensures LeaseFits(t, l) { assert LeaseFits(s, l); }
      forall x | x in t.txs ensures TxFits(t, x) { assert TxFits(s, x); }
      forall id | id in t.rows ensures RowFits(t, id) { assert RowFits(s, id); }
    }
  }

  lemma CloseKeepsInv(s: State, owner: nat)
    requires Inv(s)
    ensures Inv(Close(s, owner))
  {
    var t := Close(s, owner);
    forall o | o in t.calls ensures CallFits(t, o) { assert CallFits(s, o); }
    forall l | l in t.leases ensures LeaseFits(t, l) { assert LeaseFits(s, l); }
    forall x | x in t.txs ensures TxFits(t, x) { assert TxFits(s, x); }
  }

  /** Changing what one call has observed, or that its answer is lost. */
  lemma CallKeepsInv(s: State, owner: nat, c: Call)
    requires Inv(s) && owner in s.calls
    requires c == s.calls[owner].(lost := c.lost, observed := c.observed)
    requires c.observed.Some? ==> c.lost && c.token !in s.txs && SeenFits(s, c, owner, c.observed.value)
    ensures Inv(s.(calls := s.calls[owner := c]))
  {
    var t := s.(calls := s.calls[owner := c]);
    assert CallFits(s, owner);
    forall o | o in t.calls ensures CallFits(t, o) { assert CallFits(s, o); }
    forall l | l in t.leases ensures LeaseFits(t, l) { assert LeaseFits(s, l); }
    forall x | x in t.txs ensures TxFits(t, x) { assert TxFits(s, x); }
  }

  /** Handing an applied claim to its caller. */
  lemma HandOutKeepsInv(s: State, owner: nat)
    requires Inv(s) && owner in s.calls && s.calls[owner].token in s.applied
    ensures Inv(Close(s.(leases := s.leases + LeasesOf(s.calls[owner])), owner))
  {
    var c := s.calls[owner];
    var t := Close(s.(leases := s.leases + LeasesOf(c)), owner);
    assert CallFits(s, owner);
    forall o | o in t.calls ensures CallFits(t, o) { assert CallFits(s, o); }
    forall l | l in t.leases
      ensures LeaseFits(t, l)
    {
      if l in s.leases { assert LeaseFits(s, l); }
    }
    forall x | x in t.txs ensures TxFits(t, x) { assert TxFits(s, x); }
  }

  lemma AnsweredKeepsInv(s: State, owner: nat)
    requires Inv(s)
    ensures Inv(OnAnswered(s, owner))
  {
    CloseKeepsInv(s, owner);
    if owner in s.calls && s.calls[owner].token in s.applied { HandOutKeepsInv(s, owner); }
  }

  lemma AnswerLostKeepsInv(s: State, owner: nat)
    requires Inv(s)
    ensures Inv(OnAnswerLost(s, owner))
  {
    if owner in s.calls {
      assert CallFits(s, owner);
      CallKeepsInv(s, owner, s.calls[owner].(lost := true));
    }
  }

  lemma ReadBackKeepsInv(s: State, owner: nat)
    requires Inv(s)
    ensures Inv(OnReadBack(s, owner))
  {
    var t := OnReadBack(s, owner);
    if t != s {
      var c := s.calls[owner];
      assert CallFits(s, owner);
      assert c.ids[0] in c.ids;
      assert c.token !in s.txs;
      var seen := t.calls[owner].observed.value;
      forall id | id in seen && Carries(seen[id], owner, c.token)
        ensures c.token in s.applied && seen[id].expires == c.expires
      {
        assert RowFits(s, id);
      }
      assert SeenFits(s, c, owner, seen);
      CallKeepsInv(s, owner, c.(observed := Some(seen)));
    }
  }

  lemma ReconcileKeepsInv(s: State, owner: nat)
    requires Inv(s)
    ensures Inv(OnReconcile(s, owner))
  {
    if owner in s.calls && s.calls[owner].lost && s.calls[owner].observed.Some? {
      var c := s.calls[owner];
      assert CallFits(s, owner);
      CloseKeepsInv(s, owner);
      CallKeepsInv(s, owner, c.(observed := None));
      if |Matching(c.observed.value, owner, c)| == |c.ids| {
        assert c.ids[0] in c.ids;
        HandOutKeepsInv(s, owner);
      }
    }
  }

  lemma SettleKeepsInv(s: State, l: Lease, status: Status)
    requires Inv(s)
    ensures Inv(OnSettle(s, l, status))
  {
    var t := OnSettle(s, l, status);
    if t != s { assert LeaseFits(s, l); }
    forall o | o in t.calls ensures CallFits(t, o) { assert CallFits(s, o); }
    forall m | m in t.leases ensures LeaseFits(t, m) { assert LeaseFits(s, m); }
    forall x | x in t.txs ensures TxFits(t, x) { assert TxFits(s, x); }
  }

  lemma ReclassifyKeepsInv(s: State, id: nat)
    requires Inv(s)
    ensures Inv(OnReclassify(s, id))
  {
    var t := OnReclassify(s, id);
    forall o | o in t.calls ensures CallFits(t, o) { assert CallFits(s, o); }
    forall l | l in t.leases ensures LeaseFits(t, l) { assert LeaseFits(s, l); }
    forall x | x in t.txs ensures TxFits(t, x) { assert TxFits(s, x); }
  }

  lemma CallStepKeepsInv(s: State, a: Action)
    requires Inv(s) && (a.Answered? || a.AnswerLost? || a.ReadBack? || a.ReadFails? || a.Reconcile? || a.EndProcess?)
    ensures Inv(Step(s, a))
  {
    match a
    case Answered(owner) => AnsweredKeepsInv(s, owner);
    case AnswerLost(owner) => AnswerLostKeepsInv(s, owner);
    case ReadBack(owner) => ReadBackKeepsInv(s, owner);
    case ReadFails(owner) => if owner in s.calls { CallKeepsInv(s, owner, s.calls[owner].(observed := None)); }
    case Reconcile(owner) => ReconcileKeepsInv(s, owner);
    case EndProcess(owner) => CloseKeepsInv(s, owner);
  }

  lemma StepKeepsInv(s: State, a: Action)
    requires Inv(s)
    ensures Inv(Step(s, a))
  {
    match a
    case Tick(elapsed) => TickKeepsInv(s, elapsed);
    case Insert(id) => if id !in s.rows { InsertKeepsInv(s, id); }
    case Select(owner, ids, at, leaseMs) => SelectKeepsInv(s, owner, ids, at, leaseMs);
    case Decide(token, applied) => DecideKeepsInv(s, token, applied);
    case Settle(l, status) => SettleKeepsInv(s, l, status);
    case Reclassify(id) => ReclassifyKeepsInv(s, id);
    case _ => CallStepKeepsInv(s, a);
  }

  lemma InsertKeepsInv(s: State, id: nat)
    requires Inv(s) && id !in s.rows
    ensures Inv(s.(rows := s.rows[id := Row(Ready, 0, 0, 0)]))
  {
    var t := s.(rows := s.rows[id := Row(Ready, 0, 0, 0)]);
    forall o | o in t.calls ensures CallFits(t, o) { assert CallFits(s, o); }
    forall l | l in t.leases ensures LeaseFits(t, l) { assert LeaseFits(s, l); }
    forall x | x in t.txs ensures TxFits(t, x) { assert TxFits(s, x); }
  }

  lemma {:induction false} RunKeepsInv(s: State, actions: seq<Action>)
    requires Inv(s)
    ensures Inv(Run(s, actions))
    decreases |actions|
  {
    if actions != [] {
      StepKeepsInv(s, actions[0]);
      RunKeepsInv(Step(s, actions[0]), actions[1..]);
    }
  }

  // ---------- What holds over every run ----------

  /** No row is ever handed to two live owners, and live work is what the row itself says. */
  lemma OneLiveOwner(start: int, actions: seq<Action>, l: Lease, m: Lease)
    requires var s := Run(Initial(start), actions); Live(s, l) && Live(s, m) && l.id == m.id
    ensures l == m
    ensures Holds(Run(Initial(start), actions), l.id, l.token, l.expires)
  {
    var s := Run(Initial(start), actions);
    RunKeepsInv(Initial(start), actions);
    assert LeaseFits(s, l) && LeaseFits(s, m);
  }

  /** Reconciling hands out the whole claim exactly when it was committed and its lease still
      runs, and then every one of its rows carries the token now; otherwise it hands out
      nothing. It leaves the claim unresolved only when some but not all rows still carry the
      token, which takes an expired lease. */
  lemma ReconcileHandsOutExactly(start: int, actions: seq<Action>, owner: nat)
    requires var s := Run(Initial(start), actions);
      owner in s.calls && s.calls[owner].lost && s.calls[owner].observed.Some?
    ensures var s := Run(Initial(start), actions);
      var c := s.calls[owner];
      var t := Step(s, Reconcile(owner));
      && (c.token in s.applied && s.now < c.expires ==>
        && t.leases == s.leases + LeasesOf(c) && owner !in t.calls
        && (forall id :: id in c.ids ==> Holds(s, id, c.token, c.expires) && s.rows[id].owner == owner))
      && (!(c.token in s.applied && s.now < c.expires) ==> t.leases == s.leases)
      && (owner in t.calls <==> 0 < |Matching(c.observed.value, owner, c)| < |c.ids|)
      && (owner in t.calls ==> c.token in s.applied && c.expires <= s.now)
  {
    var s := Run(Initial(start), actions);
    RunKeepsInv(Initial(start), actions);
    var c := s.calls[owner];
    assert CallFits(s, owner);
    assert SeenFits(s, c, owner, c.observed.value);
    assert c.ids[0] in c.ids;
  }

  /** While a claim is unreconciled its claimer takes nothing new, and until it is decided, or
      while its lease runs, no other claimer can take its rows. */
  lemma UnresolvedClaimsBlock(start: int, actions: seq<Action>, owner: nat, other: nat, ids: seq<nat>, at: int, leaseMs: nat)
    requires var s := Run(Initial(start), actions);
      && owner in s.calls
      && (other == owner ||
        (exists id :: id in ids && id in s.calls[owner].ids && (s.calls[owner].token in s.txs
          || (s.calls[owner].token in s.applied && s.now < s.calls[owner].expires))))
    ensures var s := Run(Initial(start), actions); Step(s, Select(other, ids, at, leaseMs)) == s
  {
    var s := Run(Initial(start), actions);
    RunKeepsInv(Initial(start), actions);
    assert CallFits(s, owner);
    if other != owner {
      var id :| id in ids && id in s.calls[owner].ids && (s.calls[owner].token in s.txs
          || (s.calls[owner].token in s.applied && s.now < s.calls[owner].expires));
      if s.calls[owner].token in s.txs { assert Locked(s, id); }
      else { assert Holds(s, id, s.calls[owner].token, s.calls[owner].expires); }
    }
  }

  const OWNER: nat := 0

  function Fresh(): State { State(0, map[1 := Row(Ready, 0, 0, 0), 2 := Row(Ready, 0, 0, 0)], map[], {}, map[], {}, 1) }

  function Committed(now: int, first: Status): State {
    State(now, map[1 := Row(first, OWNER, 1, 100), 2 := Row(Running, OWNER, 1, 100)], map[], {1},
      map[OWNER := Call(1, [1, 2], 100, true, None)], {}, 2)
  }

  lemma FreshIsReached()
    ensures Reaches(Fresh())
  {
    assert Run(Initial(0), []) == Initial(0);
    ReachesNext(Initial(0), Insert(1));
    ReachesNext(Step(Initial(0), Insert(1)), Insert(2));
    assert Step(Step(Initial(0), Insert(1)), Insert(2)) == Fresh();
  }

  lemma CommittedIsReached()
    ensures Reaches(Committed(0, Running))
  {
    FreshIsReached();
    var s := Fresh();
    ReachesNext(s, Select(OWNER, [1, 2], 0, 100));
    var s1 := Step(s, Select(OWNER, [1, 2], 0, 100));
    assert s1 == s.(txs := map[1 := Tx(OWNER, [1, 2], 100)],
      calls := map[OWNER := Call(1, [1, 2], 100, false, None)], next := 2);
    ReachesNext(s1, AnswerLost(OWNER));
    var s2 := Step(s1, AnswerLost(OWNER));
    ReachesNext(s2, Decide(1, true));
    assert Step(s2, Decide(1, true)) == Committed(0, Running);
  }

  lemma HalfTakenBlocks()
    ensures var s := Committed(100, Unknown); Step(Step(s, ReadBack(OWNER)), Reconcile(OWNER)).calls == s.calls
  {
    var s := Committed(100, Unknown);
    var c := s.calls[OWNER];
    var t := Step(s, ReadBack(OWNER));
    assert forall id :: !Locked(s, id);
    assert c.ids[0] == 1 && c.ids[1] == 2;
    assert (map id | id in s.rows && id in c.ids :: s.rows[id]) == s.rows;
    assert Carries(s.rows[2], OWNER, 1) && !Carries(s.rows[1], OWNER, 1);
    assert 0 < |Matching(s.rows, OWNER, c)| < |c.ids|;
  }

  lemma HalfIsTaken()
    ensures Step(Committed(0, Running), Tick(100)) == Committed(100, Running)
    ensures Step(Committed(100, Running), Reclassify(1)) == Committed(100, Unknown)
  {
    var s := Committed(100, Running);
    assert !Locked(s, 1);
    assert OnReclassify(s, 1) == s.(rows := s.rows[1 := s.rows[1].(status := Unknown)]);
    assert s.rows[1 := s.rows[1].(status := Unknown)] == Committed(100, Unknown).rows;
  }

  /** The unresolved case is real: an expired claim of two rows of which another claimer's poll
      has reclassified one. From then on its claimer is blocked until someone takes the other. */
  lemma PartialMatchBlocks() returns (s: State)
    ensures Reaches(s) && OWNER in s.calls
    ensures Step(Step(s, ReadBack(OWNER)), Reconcile(OWNER)).calls == s.calls
  {
    s := Committed(0, Running);
    CommittedIsReached();
    ReachesNext(s, Tick(100));
    ReachesNext(Step(s, Tick(100)), Reclassify(1));
    HalfIsTaken();
    s := Committed(100, Unknown);
    HalfTakenBlocks();
  }

  ghost predicate Reaches(s: State) { exists actions :: Run(Initial(0), actions) == s }

  lemma ReachesNext(s: State, a: Action)
    requires Reaches(s)
    ensures Reaches(Step(s, a))
  {
    var actions :| Run(Initial(0), actions) == s;
    RunAppends(Initial(0), actions, a);
  }

  lemma {:induction false} RunAppends(s: State, actions: seq<Action>, a: Action)
    ensures Run(s, actions + [a]) == Step(Run(s, actions), a)
    decreases |actions|
  {
    if actions == [] {
      assert (actions + [a])[1..] == [];
    } else {
      assert (actions + [a])[1..] == actions[1..] + [a];
      RunAppends(Step(s, actions[0]), actions[1..], a);
    }
  }
}
