/** The bridge's group plans and the tree of groups. */
module PlanForest {
  import opened Wrappers
  import opened Schema
  import opened VaultGraph
  import opened BridgePlans
  import opened PlanSwaps
  import opened PlanAssembly
  import opened PlanTheorems
  import opened PlanRepeats
  import F = Forest

  const BRIDGE_LIMIT: nat := 64

  lemma {:induction false} AncestorsIsWalk(v: Vault, id: Id, out: seq<Id>)
    ensures Ancestors(v, id, out) == F.Walk(GroupTree(v), id, out, BRIDGE_LIMIT)
    decreases 64 - |out|
  {
    if id in v && v[id].GroupP? && v[id].group.parentId.Some? && v[id].group.parentId.value !in out && |out| < 64 {
      AncestorsIsWalk(v, v[id].group.parentId.value, out + [v[id].group.parentId.value]);
    }
  }

  /** A group upsert moves its group, or adds it, and touches no other link. */
  lemma GroupPlanReparents(w: View, next: Id, externalId: string, req: GroupRequest)
    requires Plannable(w, next) && NoTelnetKey(req.telnet) && PlanGroup(w, next, externalId, req).Ok?
    ensures
      var o := GroupParts(w, next, externalId, req).o;
      && NamedGroup(w, req.parent).Ok?
      && GroupTree(Apply(w.data, PlanGroup(w, next, externalId, req).value)) ==
           F.Reparent(GroupTree(w.data), o, NamedGroup(w, req.parent).value)
      && (NamedGroup(w, req.parent).value.Some? ==>
            F.GuardAccepts(GroupTree(w.data), o, NamedGroup(w, req.parent).value.value, BRIDGE_LIMIT))
  {
    var e, p := GroupPlanFacts(w, next, externalId, req);
    var parent := NamedGroup(w, req.parent).value;
    assert p.owner.GroupP? && GroupRef(p.owner) == parent;
    if parent.Some? {
      AncestorsIsWalk(w.data, parent.value, []);
      assert parent.value != p.o && p.o !in Ancestors(w.data, parent.value, []);
    }
    hide PlanGroup, NamedGroup, GroupParts;
    PlannedTree(w.data, p, e);
  }

  lemma TwoSlotsOf(v: Vault, p: Parts)
    requires PartsOk(v, p)
    ensures TwoSlots(v, p.ssh, p.telnet)
  {
  }

  lemma PlannedTree(v: Vault, p: Parts, e: Edit)
    requires PartsOk(v, p) && Writes(e, p.o, p.owner, p.ssh, p.telnet, p.tags) && Makes(v, p.Assembly(), Apply(v, e))
    requires p.owner.GroupP? && p.tags == map[]
    ensures GroupTree(Apply(v, e)) == F.Reparent(GroupTree(v), p.o, GroupRef(p.owner))
  {
    var after := Apply(v, e);
    hide PartsOk, Makes, Writes, Apply, NamesFrom, Took;
    assert PartsOk(v, p) ==> TwoSlots(v, p.ssh, p.telnet) by { TwoSlotsOf(v, p); }
    PartsNamesFrom(v, p, e);
    SlotsTook(v, p, after);
    forall x | x != p.o && x in v && v[x].GroupP?
      ensures AsBefore(v, after, x)
    {
      OthersAsBefore(v, p, after, x);
    }
    NamesGiveGroups(v, after, p.o);
    TreeOfMove(v, after, p.o);
  }

  /** Apart from `o` the two vaults have the same groups. */
  ghost predicate SameGroups(v: Vault, w: Vault, o: Id) {
    && (forall x :: x != o && x in v && v[x].GroupP? ==> AsBefore(v, w, x))
    && (forall x :: x != o && x in w && w[x].GroupP? ==> AsBefore(v, w, x))
  }

  lemma NamesGiveGroups(v: Vault, w: Vault, o: Id)
    requires NamesFrom(v, w, o, map[]) && forall x :: x != o && x in v && v[x].GroupP? ==> AsBefore(v, w, x)
    ensures SameGroups(v, w, o)
  {
  }

  lemma TreeOfMove(v: Vault, w: Vault, o: Id)
    requires SameGroups(v, w, o) && o in w && w[o].GroupP?
    ensures GroupTree(w) == F.Reparent(GroupTree(v), o, GroupRef(w[o]))
  {
  }

  /** A group upsert keeps the tree of groups acyclic exactly when the group is
      not an ancestor of its new parent beyond the 64 that are looked at. */
  lemma GroupPlanKeepsForestExactly(w: View, next: Id, externalId: string, req: GroupRequest)
    requires Plannable(w, next) && NoTelnetKey(req.telnet) && PlanGroup(w, next, externalId, req).Ok?
    requires F.Acyclic(GroupTree(w.data))
    ensures
      var o, parent := GroupParts(w, next, externalId, req).o, NamedGroup(w, req.parent).value;
      F.Acyclic(GroupTree(Apply(w.data, PlanGroup(w, next, externalId, req).value))) <==>
        (parent.Some? ==> !F.BeyondLimit(GroupTree(w.data), o, parent.value, BRIDGE_LIMIT))
  {
    GroupPlanReparents(w, next, externalId, req);
    var o, parent := GroupParts(w, next, externalId, req).o, NamedGroup(w, req.parent).value;
    if parent.Some? {
      F.GuardedMoveExactly(GroupTree(w.data), o, parent.value, BRIDGE_LIMIT);
    } else {
      F.ReparentIsAcyclicExactly(GroupTree(w.data), o, None);
    }
  }

  /** Deleting a group takes its node out of the tree. */
  lemma DeleteGroupLifts(w: View, next: Id, externalId: string)
    requires Plannable(w, next) && GroupByExternalId(w, externalId).Some?
    ensures GroupTree(Apply(w.data, PlanDeleteGroup(w, next, externalId))) ==
              F.Lift(GroupTree(w.data), GroupByExternalId(w, externalId).value)
  {
    var g := GroupByExternalId(w, externalId).value;
    var v, e := w.data, PlanDeleteGroup(w, next, externalId);
    var after := Apply(v, e);
    assert g !in after;
    forall x | x in v && v[x].GroupP? && x != g
      ensures x in after && after[x] ==
          Regrouped(v[x], if GroupRef(v[x]) == Some(g) then GroupRef(v[g]) else GroupRef(v[x]))
    {
      DeleteGroupKeepsMembers(w, next, externalId, x);
    }
    DeleteGroupAddsNone(w, next, externalId);
    hide PlanDeleteGroup, Apply, GroupByExternalId, Plannable;
    TreeOfLift(v, after, g);
  }

  lemma DeleteGroupAddsNone(w: View, next: Id, externalId: string)
    requires GroupByExternalId(w, externalId).Some?
    ensures
      var g, after := GroupByExternalId(w, externalId).value, Apply(w.data, PlanDeleteGroup(w, next, externalId));
      forall x :: x in after && after[x].GroupP? ==> x in w.data && w.data[x].GroupP? && x != g
  {
  }

  lemma TreeOfLift(v: Vault, w: Vault, g: Id)
    requires g in v && v[g].GroupP? && g !in w
    requires forall x :: x in w && w[x].GroupP? ==> x in v && v[x].GroupP?
    requires forall x :: x in v && v[x].GroupP? && x != g ==>
               x in w && w[x] == Regrouped(v[x], if GroupRef(v[x]) == Some(g) then GroupRef(v[g]) else GroupRef(v[x]))
    ensures GroupTree(w) == F.Lift(GroupTree(v), g)
  {
  }

  /** Deleting a group that is not its own parent preserves exactly the
      ancestor relation among the other groups. */
  lemma DeleteGroupKeepsAncestors(w: View, next: Id, externalId: string, a: Id, b: Id)
    requires Plannable(w, next) && GroupByExternalId(w, externalId).Some?
    requires !OwnParent(w.data, GroupByExternalId(w, externalId))
    requires Some(a) != GroupByExternalId(w, externalId) && Some(b) != GroupByExternalId(w, externalId)
    ensures F.Reaches(GroupTree(Apply(w.data, PlanDeleteGroup(w, next, externalId))), a, b) <==>
        F.Reaches(GroupTree(w.data), a, b)
  {
    var g := GroupByExternalId(w, externalId).value;
    DeleteGroupLifts(w, next, externalId);
    assert F.ParentOf(GroupTree(w.data), g) == GroupRef(w.data[g]);
    F.LiftKeepsAncestors(GroupTree(w.data), g, a, b);
  }
}
