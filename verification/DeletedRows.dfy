/** Row by row, what the deletes of hosts and groups take and what they leave. */
module DeletedRows {
  import opened Wrappers
  import opened Schema
  import opened VaultGraph
  import opened BridgePlans
  import opened PlanSwaps
  import opened PlanAssembly
  import opened PlanTheorems
  import opened PlannedHosts
  import opened SavedForms
  import opened SerialConfigs
  import HF = HostForms

  /** `p` as it is once group `g` has gone: what sat directly in it sits in `parent`. */
  function MovedOut(p: Payload, g: Id, parent: Option<Id>): Payload {
    match p
    case HostP(h) => if h.groupId == Some(g) then HostP(h.(groupId := parent)) else p
    case GroupP(c) => if c.parentId == Some(g) then GroupP(c.(parentId := parent)) else p
    case _ => p
  }

  /** `x` goes exactly if `gone` says so, and is otherwise as `now` says. */
  predicate GoesOrIs(v: Vault, w: Vault, x: Id, gone: bool, now: Payload) {
    (x in w <==> x in v && !gone) && (x in w ==> w[x] == now)
  }

  // ----- the client -----

  /** A snippet binding of host `o`. */
  predicate BoundTo(v: Vault, bound: Payload -> Option<Id>, o: Id, x: Id) {
    x in v && v[x].OtherP? && bound(v[x]) == Some(o)
  }

  lemma SlotDropsExactly(v: Vault, ref: Option<Id>, sort: Sort, x: Id)
    requires Points(v, ref, sort) && sort in {SshS, TelnetS, WebDavS}
    ensures x in HF.DropSlot(HF.ConfigOf(v, ref, sort), HF.InlineOfConfig(v, ref)) <==>
      ref == Some(x) || InlineAt(v, ref) == Some(x)
  {
    HadIs(v, ref);
  }

  lemma ChangesBySlot(v: Vault, o: Id, x: Id)
    requires o in v && IsOwner(v[o])
    ensures MayChange(v, o, x) <==>
      || SlotRef(v[o], 0) == Some(x) || InlineAt(v, SlotRef(v[o], 0)) == Some(x)
      || SlotRef(v[o], 1) == Some(x) || InlineAt(v, SlotRef(v[o], 1)) == Some(x)
      || SlotRef(v[o], 2) == Some(x) || InlineAt(v, SlotRef(v[o], 2)) == Some(x)
  {
    SlotsAreConfigs(v[o], x);
    if MayChange(v, o, x) && !Owns(v, o, x) {
      var c: Id :| Owns(v, o, c) && InlineAt(v, Some(c)) == Some(x);
      SlotsAreConfigs(v[o], c);
    }
    if InlineAt(v, SlotRef(v[o], 0)) == Some(x) { OwnedIsChanged(v, o, 0, x); }
    if InlineAt(v, SlotRef(v[o], 1)) == Some(x) { OwnedIsChanged(v, o, 1, x); }
    if InlineAt(v, SlotRef(v[o], 2)) == Some(x) { OwnedIsChanged(v, o, 2, x); }
  }

  /** Deleting a host takes the host, its configs with their inline identities,
      its serial config and the snippet bindings to it; every other row stays. */
  lemma HostDeleteTakesExactly(v: Vault, o: Id, bound: Payload -> Option<Id>, x: Id)
    requires Closed(v) && o in v && v[o].HostP? && x in v
    ensures GoesOrIs(v, HF.DeleteHost(v, o, bound), x,
      x == o || MayChange(v, o, x) || x in SerialLeft(v, Some(v[o].host)) || BoundTo(v, bound, o, x), v[x])
    ensures HF.DeleteHost(v, o, bound).Keys <= v.Keys
  {
    assert RefsOk(v, v[o]);
    var h := Some(v[o].host);
    hide MayChange, InlineAt, Closed;
    ChangesBySlot(v, o, x);
    SlotDropsExactly(v, HF.HostSlot(h, SshS), SshS, x);
    SlotDropsExactly(v, HF.HostSlot(h, TelnetS), TelnetS, x);
    SlotDropsExactly(v, HF.HostSlot(h, WebDavS), WebDavS, x);
    hide HF.DropSlot, HF.ConfigOf, HF.InlineOfConfig;
  }

  /** Deleting a group takes the group and its SSH defaults with their inline
      login. Its direct members move to its parent; every other row stays. */
  lemma GroupDeleteTakesExactly(v: Vault, g: Id, x: Id)
    requires Closed(v) && g in v && v[g].GroupP? && x in v
    ensures
      var ssh := v[g].group.sshConfigId;
      GoesOrIs(v, HF.DeleteGroup(v, g), x, x == g || ssh == Some(x) || InlineAt(v, ssh) == Some(x),
        MovedOut(v[x], g, v[g].group.parentId))
    ensures HF.DeleteGroup(v, g).Keys <= v.Keys
  {
    assert RefsOk(v, v[g]);
    hide InlineAt, Closed;
    SlotDropsExactly(v, v[g].group.sshConfigId, SshS, x);
    hide HF.DropSlot, HF.ConfigOf, HF.InlineOfConfig;
  }

  // ----- the bridge -----

  /** What a group takes along: its SSH and Telnet configs, their inline
      identities, and the key of the SSH one if no other identity names it. */
  ghost predicate GroupTakes(v: Vault, g: Id, x: Id)
    requires g in v && v[g].GroupP?
  {
    var ssh, telnet := v[g].group.sshConfigId, v[g].group.telnetConfigId;
    || x == g || ssh == Some(x) || InlineAt(v, ssh) == Some(x) || KeyGoes(v, InlineAt(v, ssh), x)
    || telnet == Some(x) || InlineAt(v, telnet) == Some(x)
  }

  lemma GroupPlanIs(w: View, next: Id, externalId: string, x: Id)
    requires GroupByExternalId(w, externalId).Some? && w.Valid()
    ensures
      var g, e := GroupByExternalId(w, externalId).value, PlanDeleteGroup(w, next, externalId);
      && g in w.data && w.data[g].GroupP?
      && (x in e.puts <==> x in w.data && GroupRef(w.data[x]) == Some(g))
      && (x in e.puts ==> e.puts[x] == MovedOut(w.data[x], g, w.data[g].group.parentId))
      && (x in e.drops <==>
            || x == g || x in DropSsh(w, w.data[g].group.sshConfigId)
            || x in DropTelnet(w, w.data[g].group.telnetConfigId))
  {
    hide DropSsh, DropTelnet;
    assert IsGroupNamed(w.data, externalId, GroupByExternalId(w, externalId).value);
  }

  /** So does a group delete of the bridge, which takes its Telnet defaults and
      an unshared key as well. */
  lemma PlannedGroupDeleteTakesExactly(w: View, next: Id, externalId: string, x: Id)
    requires Plannable(w, next) && GroupByExternalId(w, externalId).Some? && x in w.data
    ensures
      var g := GroupByExternalId(w, externalId).value;
      && g in w.data && w.data[g].GroupP?
      && GoesOrIs(w.data, Apply(w.data, PlanDeleteGroup(w, next, externalId)), x, GroupTakes(w.data, g, x),
           MovedOut(w.data[x], g, w.data[g].group.parentId))
  {
    PlannableParts(w, next);
    GroupPlanIs(w, next, externalId, x);
    var g := GroupByExternalId(w, externalId).value;
    assert RefsOk(w.data, w.data[g]);
    hide Plannable, DropSsh, DropTelnet, KeyGoes, InlineAt, PlanDeleteGroup, GroupByExternalId;
    SshGoesExactly(w, next, w.data[g].group.sshConfigId, x);
    OthersGoExactly(w, w.data[g].group.telnetConfigId, None, x);
  }

  lemma PlannableParts(w: View, next: Id)
    requires Plannable(w, next)
    ensures w.Valid() && Closed(w.data)
  {
  }
}
