/** The program's planner: one draft, filled step by step while the mirror is
    only read. Each method is the edit that `BridgePlans` says it is. */
module PlanBuilder {
  import opened Wrappers
  import opened Schema
  import opened VaultGraph
  import opened Plans
  import opened BridgePlans
  import opened Text

  lemma ThenPut(a: Edit, b: Edit, id: Id, p: Payload)
    ensures a.Then(b).Put(id, p) == a.Then(b.Put(id, p))
  {
    assert (a.puts + b.puts)[id := p] == a.puts + b.puts[id := p];
  }

  lemma StartThen(n: Id, e: Edit)
    ensures Start(n).Then(e) == e
  {
    assert map[] + e.puts == e.puts && {} + e.drops == e.drops;
  }

  class Draft {
    const w: View
    var changes: seq<(Id, Payload)>
    var deletes: seq<Id>
    var next: Id

    ghost function Edits(): Edit
      reads this
    {
      Edit(PutsOf(changes), DropsOf(deletes), next)
    }

    constructor (w: View, next: Id)
      ensures this.w == w && Edits() == Start(next)
    {
      this.w, this.next := w, next;
      changes, deletes := [], [];
      new;
      assert DropsOf(deletes) == {};
    }

    method Put(id: Id, p: Payload)
      modifies this
      ensures Edits() == old(Edits()).Put(id, p)
    {
      PutsOfAppend(changes, id, p);
      changes := changes + [(id, p)];
    }

    method Delete(id: Id)
      modifies this
      ensures Edits() == old(Edits()).Drop(id)
    {
      if id !in deletes {
        deletes := deletes + [id];
      }
      assert DropsOf(deletes) == DropsOf(old(deletes)) + {id};
    }

    /** A random id nobody has. */
    method Fresh() returns (id: Id)
      modifies this
      ensures id == old(next) && Edits() == old(Edits()).(next := id + 1)
    {
      id, next := next, next + 1;
    }

    /** Drop a key that only `identityId` names. */
    method PlanDeleteKey(identityId: Id, keyId: Option<Id>)
      modifies this
      ensures Edits() == old(Edits()).Then(Edit(map[], DropKey(w, identityId, keyId), old(next)))
    {
      if keyId.None? { return; }
      var k := keyId.value;
      var shared := exists id :: id in w.data && id != identityId && NamesKey(w.data, id, k);
      if !shared && k in w.known {
        Delete(k);
      }
    }

    method PlanNewKey(prior: Option<Id>, k: KeyInput, name: string) returns (keyId: Id)
      modifies this
      ensures keyId == PlanKey(w, old(next), prior, k, name).1
      ensures Edits() == old(Edits()).Then(PlanKey(w, old(next), prior, k, name).0)
    {
      hide KeyPayload, PutsOf, DropsOf;
      if prior.Some? && prior.value in w.data && w.data[prior.value].SshKeyP? {
        keyId := prior.value;
      } else {
        keyId := Fresh();
      }
      Put(keyId, KeyPayload(k, name));
    }

    /** Rewrite or create an inline identity. */
    method PlanInline(inline: Option<Id>, c: Credentials, name: string) returns (id: Id)
      modifies this
      ensures id == PlanLogin(w, old(next), inline, c, name).1
      ensures Edits() == old(Edits()).Then(PlanLogin(w, old(next), inline, c, name).0)
    {
      hide PlanKey, DropKey, PutsOf, DropsOf;
      var ident := NewIdentity();
      if inline.Some? && inline.value in w.data && w.data[inline.value].IdentityP? {
        id, ident := inline.value, w.data[inline.value].identity;
      } else {
        id := Fresh();
      }
      ghost var start, next1 := old(Edits()), next;
      var keyed := ident.sshKeyId;
      ident := ident.(
        name := name, username := Trim(OrEmpty(c.username)), password := NonEmpty(c.password),
        isVisible := false, sshId := false, sshIdKeyType := None, sshCertificateId := None);
      match c.key
      case Some(k) =>
        var keyId := PlanNewKey(keyed, k, name);
        ident := ident.(sshKeyId := Some(keyId));
        ThenPut(start, PlanKey(w, next1, keyed, k, name).0, id, IdentityP(ident));
        Put(id, IdentityP(ident));
      case None =>
        PlanDeleteKey(id, keyed);
        ident := ident.(sshKeyId := None);
        Put(id, IdentityP(ident));
        assert Edits() == start.Then(PlanLogin(w, old(next), inline, c, name).0);
    }

    /** The identity a config should name, planned from its credentials. */
    method PlanIdentityFor(prior: Option<Id>, creds: Option<Credentials>, name: string) returns (id: Option<Id>)
      modifies this
      ensures id == PlanIdentity(w, old(next), prior, creds, name).1
      ensures Edits() == old(Edits()).Then(PlanIdentity(w, old(next), prior, creds, name).0)
    {
      if creds.None? || creds.value.IsEmpty() {
        if prior.None? || prior.value !in w.data || !w.data[prior.value].IdentityP? { return None; }
        var i := w.data[prior.value].identity;
        if i.isVisible { return prior; }
        PlanDeleteKey(prior.value, i.sshKeyId);
        Delete(prior.value);
        return None;
      }
      var planned := PlanInline(InlineIdentity(w, prior), creds.value, name);
      id := Some(planned);
    }

    method PlanSshConfig(prior: Option<Id>, section: Option<Section>, name: string) returns (id: Id)
      modifies this
      ensures id == PlanSsh(w, old(next), prior, section, name).1
      ensures Edits() == old(Edits()).Then(PlanSsh(w, old(next), prior, section, name).0)
    {
      hide PlanIdentity, PutsOf, DropsOf;
      var cfg := SshConfig(None, None, "");
      if prior.Some? && prior.value in w.data && w.data[prior.value].SshConfigP? {
        id, cfg := prior.value, w.data[prior.value].ssh;
      } else {
        id := Fresh();
      }
      ghost var start, next1, was := old(Edits()), next, cfg.identityId;
      var creds := if section.Some? then section.value.credentials else None;
      cfg := cfg.(port := if section.Some? then section.value.port else None);
      var identity := PlanIdentityFor(cfg.identityId, creds, name);
      cfg := cfg.(identityId := identity);
      ThenPut(start, PlanIdentity(w, next1, was, creds, name).0, id, SshConfigP(cfg));
      Put(id, SshConfigP(cfg));
    }

    method PlanTelnetConfig(prior: Option<Id>, section: Section, name: string) returns (id: Id)
      modifies this
      ensures id == PlanTelnet(w, old(next), prior, section, name).1
      ensures Edits() == old(Edits()).Then(PlanTelnet(w, old(next), prior, section, name).0)
    {
      hide PlanIdentity, PutsOf, DropsOf;
      var cfg := TelnetConfig(None, None, "");
      if prior.Some? && prior.value in w.data && w.data[prior.value].TelnetConfigP? {
        id, cfg := prior.value, w.data[prior.value].telnet;
      } else {
        id := Fresh();
      }
      ghost var start, next1, was := old(Edits()), next, cfg.identityId;
      cfg := cfg.(port := section.port);
      var identity := PlanIdentityFor(cfg.identityId, section.credentials, name);
      cfg := cfg.(identityId := identity);
      ThenPut(start, PlanIdentity(w, next1, was, section.credentials, name).0, id, TelnetConfigP(cfg));
      Put(id, TelnetConfigP(cfg));
    }

    method PlanDeleteSsh(prior: Option<Id>)
      modifies this
      ensures Edits() == old(Edits()).Then(Edit(map[], DropSsh(w, prior), old(next))) && next == old(next)
    {
      if prior.None? || prior.value !in w.data || !w.data[prior.value].SshConfigP? { return; }
      var inline := InlineIdentity(w, w.data[prior.value].ssh.identityId);
      if inline.Some? {
        PlanDeleteKey(inline.value, w.data[inline.value].identity.sshKeyId);
        Delete(inline.value);
      }
      Delete(prior.value);
    }

    method PlanDeleteTelnet(prior: Option<Id>)
      modifies this
      ensures Edits() == old(Edits()).Then(Edit(map[], DropTelnet(w, prior), old(next))) && next == old(next)
    {
      if prior.None? || prior.value !in w.data || !w.data[prior.value].TelnetConfigP? { return; }
      var inline := InlineIdentity(w, w.data[prior.value].telnet.identityId);
      if inline.Some? { Delete(inline.value); }
      Delete(prior.value);
    }

    method PlanDeleteWebDav(prior: Option<Id>)
      modifies this
      ensures Edits() == old(Edits()).Then(Edit(map[], DropWebDav(w, prior), old(next))) && next == old(next)
    {
      if prior.None? || prior.value !in w.data || !w.data[prior.value].WebDavConfigP? { return; }
      var inline := InlineIdentity(w, w.data[prior.value].webdav.identityId);
      if inline.Some? { Delete(inline.value); }
      Delete(prior.value);
    }

    method PlanSshHalf(prior: Option<Id>, wanted: bool, section: Option<Section>, name: string) returns (id: Option<Id>)
      modifies this
      ensures id == PlanSshSlot(w, old(next), prior, wanted, section, name).1
      ensures Edits() == old(Edits()).Then(PlanSshSlot(w, old(next), prior, wanted, section, name).0)
    {
      if !wanted {
        PlanDeleteSsh(prior);
        return None;
      }
      var cfg := PlanSshConfig(prior, section, name);
      id := Some(cfg);
    }

    method PlanTelnetHalf(prior: Option<Id>, section: Option<Section>, name: string) returns (id: Option<Id>)
      modifies this
      ensures id == PlanTelnetSlot(w, old(next), prior, section, name).1
      ensures Edits() == old(Edits()).Then(PlanTelnetSlot(w, old(next), prior, section, name).0)
    {
      if section.None? {
        PlanDeleteTelnet(prior);
        return None;
      }
      var cfg := PlanTelnetConfig(prior, section.value, name);
      id := Some(cfg);
    }

    /** Tag ids for the requested labels, each case-folded label once. */
    method PlanTagIds(fold: string -> string, tags: seq<string>) returns (ids: seq<Id>)
      modifies this
      ensures ids == PlanTags(w, old(next), fold, tags).1
      ensures Edits() == old(Edits()).Then(PlanTags(w, old(next), fold, tags).0)
    {
      ids := [];
      var seen := {};
      for i := 0 to |tags|
        invariant (ids, seen) == (PlanTags(w, old(next), fold, tags[..i]).1, PlanTags(w, old(next), fold, tags[..i]).2)
        invariant Edits() == old(Edits()).Then(PlanTags(w, old(next), fold, tags[..i]).0)
      {
        assert tags[..i + 1][..i] == tags[..i];
        ghost var before := PlanTags(w, old(next), fold, tags[..i]).0;
        var t := Trim(tags[i]);
        if t == "" || fold(t) in seen { continue; }
        seen := seen + {fold(t)};
        var known := TagByName(w, fold, t);
        if known.Some? {
          ids := ids + [known.value];
        } else {
          var id := Fresh();
          Put(id, TagP(Tag(t, None)));
          ThenPut(old(Edits()), before.(next := id + 1), id, TagP(Tag(t, None)));
          ids := ids + [id];
        }
      }
      assert tags[..|tags|] == tags;
    }
  }

  /** Plan a host upsert on mirror `w`. */
  method BuildHost(w: View, keyHeld: bool, next: Id, externalId: string, req: HostRequest, fold: string -> string)
    returns (r: Result<Plan, PlanError>, ghost drawn: Id)
    ensures !keyHeld ==> r == Err(NoKey)
    ensures keyHeld ==> match PlanHost(w, next, externalId, req, fold)
      case Err(e) => r == Err(e)
      case Ok(e) => r.Ok? && e == Edit(PutsOf(r.value.changes), DropsOf(r.value.deletes), drawn)
  {
    hide PlanSshSlot, PlanTelnetSlot, PlanTags, HostByExternalId, NamedGroup, HostName, HostAs, HostNow, PutsOf,
      DropsOf;
    drawn := next;
    if !keyHeld { return Err(NoKey), next; }
    var d := new Draft(w, next);
    var existing := HostByExternalId(w, externalId);
    var hostId;
    if existing.Some? { hostId := existing.value; } else { hostId := d.Fresh(); }
    var was := HostNow(w, hostId);
    var group := NamedGroup(w, req.group);
    if group.Err? { return Err(group.error), next; }
    ghost var first := PlanSshSlot(w, d.next, was.sshConfigId, req.ssh.Some? || req.telnet.None?, req.ssh,
      HostName(req)).0;
    StartThen(d.next, first);
    var ssh := d.PlanSshHalf(was.sshConfigId, req.ssh.Some? || req.telnet.None?, req.ssh, HostName(req));
    var telnet := d.PlanTelnetHalf(was.telnetConfigId, req.telnet, HostName(req));
    var tagIds := d.PlanTagIds(fold, req.tags);
    d.Put(hostId, HostP(HostAs(was, externalId, req, group.value, ssh, telnet, tagIds)));
    r, drawn := Ok(Plan(d.changes, d.deletes)), d.next;
  }

  /** Plan a group upsert on mirror `w`. */
  method BuildGroup(w: View, keyHeld: bool, next: Id, externalId: string, req: GroupRequest)
    returns (r: Result<Plan, PlanError>, ghost drawn: Id)
    ensures !keyHeld ==> r == Err(NoKey)
    ensures keyHeld ==> match PlanGroup(w, next, externalId, req)
      case Err(e) => r == Err(e)
      case Ok(e) => r.Ok? && e == Edit(PutsOf(r.value.changes), DropsOf(r.value.deletes), drawn)
  {
    hide PlanSshSlot, PlanTelnetSlot, GroupByExternalId, NamedGroup, Ancestors, GroupAs, GroupNow, PutsOf, DropsOf;
    drawn := next;
    if !keyHeld { return Err(NoKey), next; }
    var d := new Draft(w, next);
    var existing := GroupByExternalId(w, externalId);
    var groupId;
    if existing.Some? { groupId := existing.value; } else { groupId := d.Fresh(); }
    var was := GroupNow(w, groupId);
    var parent := NamedGroup(w, req.parent);
    if parent.Err? { return Err(parent.error), next; }
    if parent.value.Some? {
      var above := AncestorsOf(w.data, parent.value.value);
      if parent.value.value == groupId || groupId in above { return Err(OwnAncestor), next; }
    }
    ghost var first := PlanSshSlot(w, d.next, was.sshConfigId, req.ssh.Some?, req.ssh, Trim(req.name)).0;
    StartThen(d.next, first);
    var ssh := d.PlanSshHalf(was.sshConfigId, req.ssh.Some?, req.ssh, Trim(req.name));
    var telnet := d.PlanTelnetHalf(was.telnetConfigId, req.telnet, Trim(req.name));
    d.Put(groupId, GroupP(GroupAs(was, externalId, req, parent.value, ssh, telnet)));
    r, drawn := Ok(Plan(d.changes, d.deletes)), d.next;
  }

  /** The walk up from a group, as a loop. */
  method AncestorsOf(v: Vault, start: Id) returns (out: seq<Id>)
    ensures out == Ancestors(v, start, [])
  {
    var id := start;
    out := [];
    while id in v && v[id].GroupP? && v[id].group.parentId.Some? && v[id].group.parentId.value !in out && |out| < 64
      invariant Ancestors(v, id, out) == Ancestors(v, start, [])
      decreases 64 - |out|
    {
      id := v[id].group.parentId.value;
      out := out + [id];
    }
  }

  method BuildDeleteHost(w: View, next: Id, externalId: string) returns (plan: Plan)
    requires w.Valid()
    ensures PlanDeleteHost(w, next, externalId) == Edit(PutsOf(plan.changes), DropsOf(plan.deletes), next)
  {
    var d := new Draft(w, next);
    var found := HostByExternalId(w, externalId);
    if found.Some? {
      var h := w.data[found.value].host;
      d.PlanDeleteSsh(h.sshConfigId);
      d.PlanDeleteTelnet(h.telnetConfigId);
      d.PlanDeleteWebDav(h.webdavConfigId);
      d.Delete(found.value);
    }
    plan := Plan(d.changes, d.deletes);
  }

  /** A member of `gid` of the kind being moved. */
  predicate Member(v: Vault, hosts: bool, gid: Id, id: Id) {
    id in v && (if hosts then v[id].HostP? else v[id].GroupP?) && GroupRef(v[id]) == Some(gid)
  }

  /** The members among `seen`, each lifted to the group's parent. */
  function LiftedAmong(v: Vault, seen: seq<Id>, hosts: bool, gid: Id, parent: Option<Id>): map<Id, Payload> {
    map id | id in seen && Member(v, hosts, gid, id) :: Lifted(v[id], gid, parent)
  }

  lemma OneMoreSeen(v: Vault, order: seq<Id>, i: nat, hosts: bool, gid: Id, parent: Option<Id>)
    requires i < |order|
    ensures
      var was := LiftedAmong(v, order[..i], hosts, gid, parent);
      LiftedAmong(v, order[..i + 1], hosts, gid, parent) ==
        if Member(v, hosts, gid, order[i]) then was[order[i] := Lifted(v[order[i]], gid, parent)] else was
  {
    hide Lifted, Member;
    assert order[..i + 1] == order[..i] + [order[i]];
  }

  /** Move the hosts, or the sub-groups, of `gid` to `parent`. */
  method LiftMembers(d: Draft, hosts: bool, gid: Id, parent: Option<Id>)
    modifies d
    ensures d.Edits() == old(d.Edits()).Then(Edit(LiftedAmong(d.w.data, d.w.order, hosts, gid, parent), {},
        old(d.next)))
    ensures d.next == old(d.next)
  {
    hide Lifted, LiftedAmong;
    var v, order := d.w.data, d.w.order;
    assert LiftedAmong(v, order[..0], hosts, gid, parent) == map[] by { NobodySeen(v, order, hosts, gid, parent); }
    for i := 0 to |order|
      invariant d.Edits() == old(d.Edits()).Then(Edit(LiftedAmong(v, order[..i], hosts, gid, parent), {}, old(d.next)))
    {
      var id := order[i];
      OneMoreSeen(v, order, i, hosts, gid, parent);
      if Member(v, hosts, gid, id) {
        ThenPut(old(d.Edits()), Edit(LiftedAmong(v, order[..i], hosts, gid, parent), {}, old(d.next)), id,
          Lifted(v[id], gid, parent));
        d.Put(id, Lifted(v[id], gid, parent));
      }
    }
    assert order[..|order|] == order;
  }

  lemma NobodySeen(v: Vault, order: seq<Id>, hosts: bool, gid: Id, parent: Option<Id>)
    ensures LiftedAmong(v, order[..0], hosts, gid, parent) == map[]
  {
  }

  /** Hosts and sub-groups together are the members that the edit moves. */
  lemma AllMembers(w: View, gid: Id, parent: Option<Id>)
    requires w.Valid()
    ensures LiftedAmong(w.data, w.order, true, gid, parent) + LiftedAmong(w.data, w.order, false, gid, parent) ==
      map id | id in w.data && GroupRef(w.data[id]) == Some(gid) :: Lifted(w.data[id], gid, parent)
  {
  }

  lemma MovesThenDrops(n: Id, a: map<Id, Payload>, b: map<Id, Payload>, s: set<Id>, t: set<Id>, g: Id)
    ensures Start(n).Then(Edit(a, {}, n)).Then(Edit(b, {}, n)).Then(Edit(map[], s, n)).Then(Edit(map[], t,
        n)).Drop(g) ==
      Edit(a + b, s + t + {g}, n)
  {
  }

  method BuildDeleteGroup(w: View, next: Id, externalId: string) returns (plan: Plan)
    requires w.Valid()
    ensures PlanDeleteGroup(w, next, externalId) == Edit(PutsOf(plan.changes), DropsOf(plan.deletes), next)
  {
    hide Lifted, LiftedAmong, DropSsh, DropTelnet, PutsOf, DropsOf, Edit.Then, Edit.Drop;
    var d := new Draft(w, next);
    var found := GroupByExternalId(w, externalId);
    if found.Some? {
      var gid := found.value;
      var g := w.data[gid].group;
      LiftMembers(d, true, gid, g.parentId);
      LiftMembers(d, false, gid, g.parentId);
      AllMembers(w, gid, g.parentId);
      d.PlanDeleteSsh(g.sshConfigId);
      d.PlanDeleteTelnet(g.telnetConfigId);
      d.Delete(gid);
      MovesThenDrops(next, LiftedAmong(w.data, w.order, true, gid, g.parentId),
        LiftedAmong(w.data, w.order, false, gid, g.parentId),
                     DropSsh(w, g.sshConfigId), DropTelnet(w, g.telnetConfigId), gid);
    }
    plan := Plan(d.changes, d.deletes);
  }
}
