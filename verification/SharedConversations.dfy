/** Conversations that share one Codex thread (src/config.mjs, the group section of
    `validateRuntime`; src/agents/codex/thread-scope.mjs, `conversationChatId`). */
module SharedConversations {
  import opened Prelude
  import opened CanonicalJson
  import opened CanonicalText

  /** What `groupCodex` keeps of a group's overrides; a group without any has none of the four. */
  datatype Overrides = Overrides(cwd: Option<Text>, approvalPolicy: Option<Text>,
                                 approvalsReviewer: Option<Text>, sandbox: Option<Text>)

  datatype Group = Group(id: Text, shared: Option<Text>, bridge: bool, codex: Overrides, instructed: bool)

  datatype Verdict = Accepted | DuplicateGroup | InvalidSharedConversation | CodexConflict | InstructionsOnMember

  // ---------- Comparing overrides as text ----------

  function Member(key: Text, value: Option<Text>): seq<Field> {
    if value.Some? then [Field(key, Str(value.value))] else []
  }

  /** The keys are added in this order, whatever order the configuration had them in. */
  function OverridesJson(o: Overrides): Json {
    Obj(Member(Units("cwd"), o.cwd) + Member(Units("approvalPolicy"), o.approvalPolicy)
      + Member(Units("approvalsReviewer"), o.approvalsReviewer) + Member(Units("sandbox"), o.sandbox))
  }

  function OverridesText(o: Overrides): Text { Stringify(OverridesJson(o)) }

  /** The value under a key. */
  function Lookup(fields: seq<Field>, key: Text): Option<Json> {
    if fields == [] then None else if fields[0].key == key then Some(fields[0].value) else Lookup(fields[1..], key)
  }

  lemma {:induction false} LookupConcat(f: seq<Field>, g: seq<Field>, key: Text)
    ensures Lookup(f + g, key) == if Lookup(f, key).Some? then Lookup(f, key) else Lookup(g, key)
    decreases |f|
  {
    if f == [] {
      assert f + g == g;
    } else {
      assert (f + g)[1..] == f[1..] + g;
      LookupConcat(f[1..], g, key);
    }
  }

  lemma LookupMember(key: Text, value: Option<Text>, wanted: Text)
    ensures Lookup(Member(key, value), wanted)
      == if value.Some? && key == wanted then Some(Str(value.value)) else None
  {
    if value.Some? { assert Member(key, value)[1..] == []; }
  }

  function AsJson(value: Option<Text>): Option<Json> { if value.Some? then Some(Str(value.value)) else None }

  lemma FourMembers(a: Text, b: Text, c: Text, d: Text, o: Overrides)
    requires a != b && a != c && a != d && b != c && b != d && c != d
    ensures var f := Member(a, o.cwd) + Member(b, o.approvalPolicy) + Member(c, o.approvalsReviewer) + Member(d, o.sandbox);
      && Lookup(f, a) == AsJson(o.cwd) && Lookup(f, b) == AsJson(o.approvalPolicy)
      && Lookup(f, c) == AsJson(o.approvalsReviewer) && Lookup(f, d) == AsJson(o.sandbox)
  {
    var w, x, y, z := Member(a, o.cwd), Member(b, o.approvalPolicy), Member(c, o.approvalsReviewer), Member(d, o.sandbox);
    var keys := [a, b, c, d];
    forall i | 0 <= i < 4
      ensures Lookup(w + x + y + z, keys[i]) == if i == 0 then AsJson(o.cwd) else if i == 1 then AsJson(o.approvalPolicy)
        else if i == 2 then AsJson(o.approvalsReviewer) else AsJson(o.sandbox)
    {
      LookupConcat(w + x + y, z, keys[i]);
      LookupConcat(w + x, y, keys[i]);
      LookupConcat(w, x, keys[i]);
      LookupMember(a, o.cwd, keys[i]);
      LookupMember(b, o.approvalPolicy, keys[i]);
      LookupMember(c, o.approvalsReviewer, keys[i]);
      LookupMember(d, o.sandbox, keys[i]);
    }
    assert keys[0] == a && keys[1] == b && keys[2] == c && keys[3] == d;
  }

  lemma OverridesJsonIsExact(o: Overrides, q: Overrides)
    requires OverridesJson(o) == OverridesJson(q)
    ensures o == q
  {
    var a, b, c, d := Units("cwd"), Units("approvalPolicy"), Units("approvalsReviewer"), Units("sandbox");
    assert |a| == 3 && |b| == 14 && |c| == 17 && |d| == 7;
    FourMembers(a, b, c, d, o);
    FourMembers(a, b, c, d, q);
  }

  /** The text comparison is exact: equal texts mean the same four overrides, set or unset. */
  lemma OverridesTextIsExact(o: Overrides, q: Overrides)
    ensures OverridesText(o) == OverridesText(q) <==> o == q
  {
    if OverridesText(o) == OverridesText(q) {
      OverridesAreFinite(o);
      OverridesAreFinite(q);
      StringifyInjective(OverridesJson(o), OverridesJson(q));
      OverridesJsonIsExact(o, q);
    }
  }

  lemma OverridesAreFinite(o: Overrides)
    ensures Finite(OverridesJson(o))
  {
    var f := OverridesJson(o).fields;
    assert forall i :: 0 <= i < |f| ==> f[i].value.Str?;
  }

  // ---------- Validation ----------

  predicate DistinctIds(groups: seq<Group>) { forall i, j :: 0 <= i < j < |groups| ==> groups[i].id != groups[j].id }

  /** The first group with this id, or the length. */
  function FindGroup(groups: seq<Group>, id: Text): (k: nat)
    ensures k <= |groups|
    ensures k < |groups| ==> groups[k].id == id
    ensures forall i :: 0 <= i < k ==> groups[i].id != id
  {
    if groups == [] || groups[0].id == id then 0 else 1 + FindGroup(groups[1..], id)
  }

  /** What the configuration promises of one sharing group. */
  predicate SharesProperly(groups: seq<Group>, g: Group) {
    g.shared.Some? ==>
      exists k :: 0 <= k < |groups| && groups[k].id == g.shared.value
        && g.bridge && groups[k].bridge
        && (groups[k].shared.None? || groups[k].shared == Some(groups[k].id))
        && g.codex == groups[k].codex
        && (g.id == groups[k].id || !g.instructed)
  }

  predicate ProperSharing(groups: seq<Group>) {
    DistinctIds(groups) && forall i :: 0 <= i < |groups| ==> SharesProperly(groups, groups[i])
  }

  /** The checks made of one group, in the order they are made. */
  function CheckGroup(groups: seq<Group>, g: Group): Verdict {
    if g.shared.None? then Accepted
    else
      var k := FindGroup(groups, g.shared.value);
      if k == |groups| then InvalidSharedConversation
      else
        var anchor := groups[k];
        if !g.bridge || !anchor.bridge || (anchor.shared.Some? && anchor.shared.value != anchor.id) then InvalidSharedConversation
        else if OverridesText(g.codex) != OverridesText(anchor.codex) then CodexConflict
        else if g.id != anchor.id && g.instructed then InstructionsOnMember
        else Accepted
  }

  lemma CheckIsExact(groups: seq<Group>, g: Group)
    requires DistinctIds(groups)
    ensures CheckGroup(groups, g).Accepted? <==> SharesProperly(groups, g)
  {
    if g.shared.Some? {
      var k := FindGroup(groups, g.shared.value);
      if k < |groups| { OverridesTextIsExact(g.codex, groups[k].codex); }
    }
  }

  /** The loop over the groups stops at the first that breaks a rule; it accepts exactly the
      configurations that share properly. */
  method ValidateGroups(groups: seq<Group>) returns (verdict: Verdict)
    ensures verdict.Accepted? <==> ProperSharing(groups)
    ensures verdict.DuplicateGroup? <==> !DistinctIds(groups)
    ensures !verdict.Accepted? && !verdict.DuplicateGroup? ==>
      exists i :: 0 <= i < |groups| && CheckGroup(groups, groups[i]) == verdict
        && forall j :: 0 <= j < i ==> CheckGroup(groups, groups[j]).Accepted?
  {
    if !DistinctIds(groups) { return DuplicateGroup; }
    var i := 0;
    while i < |groups|
      invariant i <= |groups|
      invariant forall j :: 0 <= j < i ==> CheckGroup(groups, groups[j]).Accepted? && SharesProperly(groups, groups[j])
    {
      CheckIsExact(groups, groups[i]);
      verdict := CheckGroup(groups, groups[i]);
      if !verdict.Accepted? { return; }
      i := i + 1;
    }
    return Accepted;
  }

  // ---------- The sharing partition ----------

  /** `conversationChatId` over the map that is built from the accepted groups. */
  function AnchorOf(groups: seq<Group>, chat: Text): Text {
    var k := FindGroup(groups, chat);
    if k < |groups| && groups[k].shared.Some? then groups[k].shared.value else chat
  }

  predicate SameThread(groups: seq<Group>, a: Text, b: Text) { AnchorOf(groups, a) == AnchorOf(groups, b) }

  lemma FoundOnce(groups: seq<Group>, i: nat)
    requires DistinctIds(groups) && i < |groups|
    ensures FindGroup(groups, groups[i].id) == i
  {}

  /** One step reaches the anchor: the anchor of an anchor is itself, for every chat, configured
      or not. So sharing is an equivalence whose classes partition the chats, each with one
      representative. */
  lemma AnchorsAreFixed(groups: seq<Group>, chat: Text)
    requires ProperSharing(groups)
    ensures AnchorOf(groups, AnchorOf(groups, chat)) == AnchorOf(groups, chat)
    ensures SameThread(groups, chat, AnchorOf(groups, chat))
  {
    var k := FindGroup(groups, chat);
    if k < |groups| && groups[k].shared.Some? {
      assert SharesProperly(groups, groups[k]);
      var m :| 0 <= m < |groups| && groups[m].id == groups[k].shared.value
        && (groups[m].shared.None? || groups[m].shared == Some(groups[m].id));
      FoundOnce(groups, m);
    }
  }

  /** Two different groups on one thread: both are bridge groups with the same Codex overrides,
      and neither carries instructions unless it is the anchor. */
  lemma SharedGroupsAgree(groups: seq<Group>, i: nat, j: nat)
    requires ProperSharing(groups) && i < |groups| && j < |groups| && i != j
    requires SameThread(groups, groups[i].id, groups[j].id)
    ensures groups[i].bridge && groups[j].bridge
    ensures groups[i].codex == groups[j].codex
    ensures groups[i].instructed ==> groups[i].id == AnchorOf(groups, groups[i].id)
    ensures groups[i].instructed ==> !groups[j].instructed
  {
    FoundOnce(groups, i);
    FoundOnce(groups, j);
    assert SharesProperly(groups, groups[i]) && SharesProperly(groups, groups[j]);
    var anchor := AnchorOf(groups, groups[i].id);
    if groups[i].shared.Some? {
      var k :| 0 <= k < |groups| && groups[k].id == anchor && groups[i].bridge && groups[k].bridge
        && groups[i].codex == groups[k].codex && (groups[i].id == groups[k].id || !groups[i].instructed);
      AgreesWithAnchor(groups, j, k);
    } else {
      assert groups[j].shared == Some(anchor);
      AgreesWithAnchor(groups, j, i);
    }
  }

  lemma AgreesWithAnchor(groups: seq<Group>, j: nat, k: nat)
    requires ProperSharing(groups) && j < |groups| && k < |groups| && AnchorOf(groups, groups[j].id) == groups[k].id
    ensures j == k || (groups[j].bridge && groups[k].bridge && groups[j].codex == groups[k].codex && !groups[j].instructed)
  {
    FoundOnce(groups, j);
    FoundOnce(groups, k);
    if j != k {
      assert SharesProperly(groups, groups[j]);
      var m :| 0 <= m < |groups| && groups[m].id == groups[j].shared.value
        && groups[j].bridge && groups[m].bridge && groups[j].codex == groups[m].codex
        && (groups[j].id == groups[m].id || !groups[j].instructed);
      FoundOnce(groups, m);
    }
  }

  /** Only accepted configurations guarantee it: a chain of two is refused, and its anchors are
      not fixed. */
  lemma ChainsAreRefused(a: Group, b: Group, c: Group)
    requires a.id != b.id && b.id != c.id && a.id != c.id
    requires a.shared == Some(b.id) && b.shared == Some(c.id) && c.shared == None
    ensures !ProperSharing([a, b, c])
    ensures AnchorOf([a, b, c], AnchorOf([a, b, c], a.id)) != AnchorOf([a, b, c], a.id)
  {
    var groups := [a, b, c];
    assert DistinctIds(groups);
    FoundOnce(groups, 0);
    FoundOnce(groups, 1);
    FoundOnce(groups, 2);
    assert groups[0] == a && groups[1] == b && groups[2] == c;
    CheckIsExact(groups, a);
    assert CheckGroup(groups, a).InvalidSharedConversation?;
    assert !SharesProperly(groups, groups[0]);
  }
}
