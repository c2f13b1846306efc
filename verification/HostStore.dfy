/** The client's rows of one vault, changed in place by the host and group
    editors. Each method is the edit that `HostForms` says it is. */
module HostStore {
  import opened Wrappers
  import opened Schema
  import opened VaultGraph
  import opened BridgePlans
  import opened CopiedLogins
  import opened CopySuccess
  import opened GroupCopies
  import opened GroupTrees
  import opened HostForms
  import opened HostRuns
  import opened Text
  import HS = HostSaves
  import SF = SavedForms
  import F = Forest

  lemma SaveMeans(v: Vault, next: Id, f: HostForm, certKey: CertKeys)
    requires HS.IdsBelow(v, next)
    ensures
      var r := SaveHost(v, next, f, certKey);
      && (r.Ok? ==> SF.HostRow(v, r.value.0, r.value.1, f))
      && (WellFormed(v) ==> (r.Ok? <==> SF.Savable(v, f, certKey)))
      && (WellFormed(v) && r.Ok? ==> SF.HostFormSaved(v, r.value.0, next, r.value.1, f, certKey))
  {
    hide *;
    if SaveHost(v, next, f, certKey).Ok? { SF.SavedHostIsTheForm(v, next, f, certKey); }
    if WellFormed(v) {
      SF.SaveHostSucceedsExactly(v, next, f, certKey);
      if SaveHost(v, next, f, certKey).Ok? { SF.SaveStoresTheForm(v, next, f, certKey); }
    }
  }

  /** `copy` is a new host beside host `id`, called "copy", with the same
      fields, settings and logins; every old row is as it was. */
  ghost predicate IsDuplicate(v: Vault, w: Vault, id: Id, copy: Id, tokenMode: bool) {
    && id in v && v[id].HostP? && copy !in v && copy in w && w[copy].HostP? && Kept(v, w)
    && HostTwin(v, v[id].host, w, w[copy].host, v[id].host.name + " copy", v[id].host.groupId, tokenMode)
  }

  lemma DuplicateAdds(v: Vault, next: Id, id: Id, tokenMode: bool, sectionOk: bool, certKey: CertKeys)
    requires HS.IdsBelow(v, next)
    ensures
      var r := DuplicateHost(v, next, id, tokenMode, sectionOk, certKey);
      r.Ok? ==> IsDuplicate(v, r.value.0, id, r.value.1, tokenMode)
  {
    hide CopyHost, HostTwin;
    if DuplicateHost(v, next, id, tokenMode, sectionOk, certKey).Ok? {
      CopyHostAdds(v, next, id, Some(v[id].host.name + " copy"), v[id].host.groupId, tokenMode, sectionOk, certKey);
    }
  }

  lemma SaveGroupMeans(v: Vault, next: Id, id: Option<Id>, name: string, parent: Option<Id>)
    requires HS.IdsBelow(v, next)
    ensures
      var r := HostForms.SaveGroup(v, next, id, name, parent);
      r.Ok? ==> SF.GroupRow(v, r.value.0, r.value.1, id, name, parent) && SF.OnlyRow(v, r.value.0, r.value.1)
  {
    hide *;
    if HostForms.SaveGroup(v, next, id, name, parent).Ok? { SF.SavedGroupIsTheForm(v, next, id, name, parent); }
  }

  lemma SaveGroupFormMeans(v: Vault, next: Id, f: GroupForm, certKey: CertKeys)
    requires HS.IdsBelow(v, next)
    ensures
      var r := HostForms.SaveGroupForm(v, next, f, certKey);
      WellFormed(v) && r.Ok? ==> SF.GroupFormSaved(v, r.value.0, next, r.value.1, f, certKey)
  {
    hide *;
    if WellFormed(v) && HostForms.SaveGroupForm(v, next, f, certKey).Ok? {
      SF.SaveStoresTheGroupForm(v, next, f, certKey);
    }
  }

  class Rows {
    var rows: Vault
    /** Random ids are drawn from here on. */
    var next: Id
    const certKey: CertKeys
    /** The host a snippet binding is for. */
    const bound: Payload -> Option<Id>

    constructor (certKey: CertKeys, bound: Payload -> Option<Id>)
      ensures rows == map[] && this.certKey == certKey && this.bound == bound
    {
      rows, next := map[], 0;
      this.certKey, this.bound := certKey, bound;
    }

    method Insert(p: Payload) returns (id: Id)
      modifies this
      ensures id == old(next) && next == id + 1 && rows == old(rows)[id := p]
    {
      id, next := next, next + 1;
      rows := rows[id := p];
    }

    method Update(id: Id, p: Payload)
      modifies this`rows
      ensures rows == old(rows)[id := p]
    {
      rows := rows[id := p];
    }

    method Remove(id: Id)
      modifies this`rows
      ensures rows == old(rows) - {id}
    {
      rows := rows - {id};
    }

    /** The login of a section, written into the rows. */
    method UpsertIdentity(inline: Option<(Id, Identity)>, c: Login, name: string)
        returns (r: Result<Option<Id>, FormError>)
      modifies this
      ensures match SaveLogin(old(rows), old(next), inline, c, name, certKey)
        case Err(e) => r == Err(e) && rows == old(rows) && next == old(next)
        case Ok((e, i)) => r == Ok(i) && rows == Apply(old(rows), e) && next == e.next
    {
      if c.identityId.Some? {
        var i := c.identityId.value;
        if i !in rows || !rows[i].IdentityP? { return Err(Missing); }
        if !rows[i].identity.isVisible { return Err(NotSelectable); }
        if inline.Some? { Remove(inline.value.0); }
        return Ok(c.identityId);
      }
      var key := LoginKey(rows, c, certKey);
      if key.Err? { return Err(key.error); }
      if key.value.Some? && (key.value.value !in rows || !rows[key.value.value].SshKeyP?) { return Err(Missing); }
      var password := if c.password.Some? then NonEmpty(c.password) else if inline.Some? then inline.value.1.password
        else None;
      var others := c.others(if inline.Some? then Some(inline.value.1.extras) else None);
      if others.None? { return Err(Refused); }
      if Trim(c.username) == "" && password.None? && key.value.None? && !c.sshId && others.value == "" {
        if inline.Some? { Remove(inline.value.0); }
        return Ok(None);
      }
      var ident := Identity(name, Trim(c.username), password, key.value,
        if key.value.Some? then c.certificate else None,
                            false, c.sshId, if c.sshId then c.sshIdKeyType else None, others.value);
      if inline.Some? {
        Update(inline.value.0, IdentityP(ident));
        return Ok(Some(inline.value.0));
      }
      var id := Insert(IdentityP(ident));
      r := Ok(Some(id));
    }

    /** Save or drop one config section of an owner. */
    method SaveSection(
      sort: Sort, was: Option<(Id, Payload)>, inline: Option<(Id, Identity)>, f: Option<SectionForm>, name: string)
      returns (r: Result<Option<Id>, FormError>)
      requires inline.Some? ==> inline.value.0 < next && (was.Some? ==> inline.value.0 != was.value.0)
      modifies this
      ensures match SaveSlot(old(rows), old(next), sort, was, inline, f, name, certKey)
        case Err(e) => r == Err(e)
        case Ok((e, id)) => r == Ok(id) && rows == Apply(old(rows), e) && next == e.next
    {
      hide SaveLogin, Configured;
      if f.None? {
        if inline.Some? { Remove(inline.value.0); }
        if was.Some? { Remove(was.value.0); }
        return Ok(None);
      }
      ghost var start, at := rows, next;
      var identity := UpsertIdentity(inline, f.value.login, name);
      if identity.Err? { return Err(identity.error); }
      ghost var e := SaveLogin(start, at, inline, f.value.login, name, certKey).value.0;
      DropsInline(start, at, inline, f.value.login, name, certKey);
      var cfg := Configured(was, sort, f.value.port, f.value.settings, identity.value);
      var id;
      if was.Some? {
        id := was.value.0;
        if id !in rows || rows[id] != cfg { Update(id, cfg); }
      } else {
        id := Insert(cfg);
      }
      PutAfterDrops(start, e, id, cfg);
      r := Ok(Some(id));
    }

    /** Save one of a host's sections, found in `v` when the save began. */
    method SaveHostSection(ghost v: Vault, was: Option<Host>, found: Option<(Id, Payload)>,
        inline: Option<(Id, Identity)>,
                           sort: Sort, f: Option<SectionForm>, name: string) returns (r: Result<Option<Id>, FormError>)
      requires found == ConfigOf(v, HostSlot(was, sort), sort) && inline == InlineOfConfig(v, HostSlot(was, sort))
      requires HS.IdsBelow(v, next) && sort in {SshS, TelnetS, WebDavS}
      modifies this
      ensures match SaveHostSlot(v, old(rows), old(next), was, sort, f, name, certKey)
        case Err(e) => r == Err(e)
        case Ok((e, id)) => r == Ok(id) && rows == Apply(old(rows), e) && next == e.next && HS.IdsBelow(v, next)
    {
      InlineIsNoConfig(v, HostSlot(was, sort), sort);
      hide ConfigOf, InlineOfConfig, HostSlot;
      if SaveSlot(rows, next, sort, found, inline, f, name, certKey).Ok? {
        NextGrows(rows, next, sort, found, inline, f, name, certKey);
      }
      hide SaveSlot;
      r := SaveSection(sort, found, inline, f, name);
    }

    /** The edit `SaveHost` in place: check first, then section by section, the host last. */
    method Save(f: HostForm) returns (r: Result<Id, FormError>)
      requires HS.IdsBelow(rows, next)
      modifies this
      ensures match SaveHost(old(rows), old(next), f, certKey)
        case Err(e) => r == Err(e)
        case Ok((w, id, n)) => r == Ok(id) && rows == w && next == n
      ensures r.Ok? ==> SF.HostRow(old(rows), rows, r.value, f)
      ensures WellFormed(old(rows)) ==> (r.Ok? <==> SF.Savable(old(rows), f, certKey))
      ensures WellFormed(old(rows)) && r.Ok? ==> SF.HostFormSaved(old(rows), rows, old(next), r.value, f, certKey)
    {
      hide SaveHostSlot, HostSlot, ConfigOf, InlineOfConfig, HS.IdsBelow, WellFormed, SF.HostRow, SF.Savable,
        SF.HostFormSaved;
      SaveMeans(rows, next, f, certKey);
      var refused := CheckHostForm(rows, f);
      if refused.Some? { return Err(refused.value); }
      ghost var v := rows;
      var was, name := ExistingHost(rows, f.id), FormName(f);
      var ssh, sshInline := ConfigOf(rows, HostSlot(was, SshS), SshS), InlineOfConfig(rows, HostSlot(was, SshS));
      var telnet, telnetInline := ConfigOf(rows, HostSlot(was, TelnetS), TelnetS),
        InlineOfConfig(rows, HostSlot(was, TelnetS));
      var webdav, webdavInline := ConfigOf(rows, HostSlot(was, WebDavS), WebDavS),
        InlineOfConfig(rows, HostSlot(was, WebDavS));
      DropSerial(was);
      var sshId := SaveHostSection(v, was, ssh, sshInline, SshS, f.ssh, name);
      if sshId.Err? { return Err(sshId.error); }
      var telnetId := SaveHostSection(v, was, telnet, telnetInline, TelnetS, f.telnet, name);
      if telnetId.Err? { return Err(telnetId.error); }
      if f.webdav.Some? && !f.webdav.value.modeKnown { return Err(Invalid); }
      var webdavId := SaveHostSection(v, was, webdav, webdavInline, WebDavS, WebDavSection(f.webdav), name);
      if webdavId.Err? { return Err(webdavId.error); }
      if f.webdav.Some? && !f.webdav.value.fingerprintOk { return Err(Invalid); }
      var owner := HostP(SavedHost(was, f, sshId.value, telnetId.value, webdavId.value));
      var id := PutRow(if was.Some? then f.id else None, owner);
      r := Ok(id);
    }

    /** A serial config found on a host is removed before anything else. */
    method DropSerial(was: Option<Host>)
      modifies this`rows
      ensures rows == WithoutSerial(old(rows), was)
    {
      if was.Some? && was.value.serialConfigId.Some? {
        var c := was.value.serialConfigId.value;
        if c in rows && rows[c].SerialConfigP? { Remove(c); }
      }
    }

    method PutRow(id: Option<Id>, p: Payload) returns (at: Id)
      modifies this
      ensures (rows, at, next) == PutOwner(old(rows), old(next), id, p)
    {
      if id.Some? {
        Update(id.value, p);
        return id.value;
      }
      at := Insert(p);
    }

    /** Take a config along with its inline identity, as an owner is deleted. */
    method RemoveSlot(was: Option<(Id, Payload)>, inline: Option<(Id, Identity)>)
      modifies this`rows
      ensures rows == old(rows) - DropSlot(was, inline)
    {
      if inline.Some? { Remove(inline.value.0); }
      if was.Some? { Remove(was.value.0); }
    }

    method RemoveAll(ids: set<Id>)
      modifies this`rows
      ensures rows == old(rows) - ids
    {
      var left := ids;
      while left != {}
        invariant left <= ids && rows == old(rows) - (ids - left)
      {
        var id :| id in left;
        left := left - {id};
        Remove(id);
      }
    }

    /** Slot by slot, then what merely mentions the host, then the host. */
    method Delete(id: Id)
      modifies this`rows
      ensures rows == DeleteHost(old(rows), id, bound)
    {
      hide DropSlot, ConfigOf, InlineOfConfig, Loose, HostSlot;
      if id !in rows || !rows[id].HostP? { return; }
      var v, h := rows, Some(rows[id].host);
      RemoveSlot(ConfigOf(v, HostSlot(h, SshS), SshS), InlineOfConfig(v, HostSlot(h, SshS)));
      RemoveSlot(ConfigOf(v, HostSlot(h, TelnetS), TelnetS), InlineOfConfig(v, HostSlot(h, TelnetS)));
      RemoveSlot(ConfigOf(v, HostSlot(h, WebDavS), WebDavS), InlineOfConfig(v, HostSlot(h, WebDavS)));
      RemoveAll(Loose(v, id, bound));
      Remove(id);
    }

    /** Copy a host into a group; its stored SSH settings travel raw. */
    method CopyRow(id: Id, title: Option<string>, groupId: Option<Id>, tokenMode: bool, sectionOk: bool)
      returns (r: Result<Id, FormError>)
      requires HS.IdsBelow(rows, next)
      modifies this
      ensures match CopyHost(old(rows), old(next), id, title, groupId, tokenMode, sectionOk, certKey)
        case Err(e) => r == Err(e)
        case Ok((w, copy, n)) => r == Ok(copy) && rows == w && next == n
    {
      hide SaveHost, CopyForm, RawSsh;
      if id !in rows || !rows[id].HostP? { return Err(Missing); }
      var v := rows;
      var name := if title.Some? then title.value else rows[id].host.name;
      var saved := Save(CopyForm(rows, id, name, groupId, tokenMode, sectionOk));
      if saved.Err? { return saved; }
      rows := RawSsh(v, rows, id, saved.value);
      r := saved;
    }

    /** A second copy of a host, beside the first, with a name that says so. */
    method Duplicate(id: Id, tokenMode: bool, sectionOk: bool) returns (r: Result<Id, FormError>)
      requires HS.IdsBelow(rows, next)
      modifies this
      ensures match DuplicateHost(old(rows), old(next), id, tokenMode, sectionOk, certKey)
        case Err(e) => r == Err(e)
        case Ok((w, copy, n)) => r == Ok(copy) && rows == w && next == n
      ensures r.Ok? ==> IsDuplicate(old(rows), rows, id, r.value, tokenMode)
    {
      hide CopyHost, IsDuplicate;
      DuplicateAdds(rows, next, id, tokenMode, sectionOk, certKey);
      if id !in rows || !rows[id].HostP? { return Err(Missing); }
      r := CopyRow(id, Some(rows[id].host.name + " copy"), rows[id].host.groupId, tokenMode, sectionOk);
    }

    // ----- groups -----

    /** The walk up from a group, as a loop. */
    method Ancestors(start: Id) returns (out: seq<Id>)
      ensures out == F.Walk(GroupTree(rows), start, [], CLIENT_LIMIT)
    {
      out := [];
      var cursor := F.ParentOf(GroupTree(rows), start);
      ghost var at := start;
      while cursor.Some?
        invariant cursor == F.ParentOf(GroupTree(rows), at) && |out| <= CLIENT_LIMIT
        invariant F.Walk(GroupTree(rows), at, out, CLIENT_LIMIT) == F.Walk(GroupTree(rows), start, [], CLIENT_LIMIT)
        decreases CLIENT_LIMIT - |out|
      {
        if |out| > 64 || cursor.value in out { break; }
        at := cursor.value;
        out := out + [cursor.value];
        cursor := F.ParentOf(GroupTree(rows), cursor.value);
      }
    }

    method CheckNewParent(id: Option<Id>, parent: Option<Id>) returns (refused: Option<FormError>)
      ensures refused == CheckParent(rows, id, parent)
    {
      if parent.None? { return None; }
      if parent == id { return Some(Invalid); }
      if parent.value !in rows || !rows[parent.value].GroupP? { return Some(Missing); }
      if id.Some? {
        var above := Ancestors(parent.value);
        if id.value in above { return Some(IntoItself); }
      }
      refused := None;
    }

    method SaveGroup(id: Option<Id>, name: string, parent: Option<Id>) returns (r: Result<Id, FormError>)
      requires HS.IdsBelow(rows, next)
      modifies this
      ensures match HostForms.SaveGroup(old(rows), old(next), id, name, parent)
        case Err(e) => r == Err(e) && rows == old(rows)
        case Ok((w, gid, n)) => r == Ok(gid) && rows == w && next == n
      ensures r.Ok? ==> SF.GroupRow(old(rows), rows, r.value, id, name, parent) && SF.OnlyRow(old(rows), rows, r.value)
    {
      hide CheckParent, Trim, SF.GroupRow, SF.OnlyRow;
      SaveGroupMeans(rows, next, id, name, parent);
      if Trim(name) == "" { return Err(Invalid); }
      var refused := CheckNewParent(id, parent);
      if refused.Some? { return Err(refused.value); }
      var was := ExistingGroup(rows, id);
      if id.Some? && was.None? { return Err(Missing); }
      var g := if id.Some? then was.value else NewGroup();
      var gid := PutRow(id, GroupP(g.(name := Trim(name), parentId := parent)));
      r := Ok(gid);
    }

    method SaveGroupSsh(was: Option<(Id, Payload)>, inline: Option<(Id, Identity)>, f: SectionForm, name: string)
      returns (r: Result<Option<Id>, FormError>)
      requires inline.Some? ==> inline.value.0 < next && (was.Some? ==> inline.value.0 != was.value.0)
      modifies this
      ensures match SaveGroupSlot(old(rows), old(next), was, inline, f, name, certKey)
        case Err(e) => r == Err(e)
        case Ok((e, id)) => r == Ok(id) && rows == Apply(old(rows), e) && next == e.next
    {
      hide SaveLogin, Configured;
      ghost var start, at := rows, next;
      var identity := UpsertIdentity(inline, f.login, name);
      if identity.Err? { return Err(identity.error); }
      ghost var e := SaveLogin(start, at, inline, f.login, name, certKey).value.0;
      DropsInline(start, at, inline, f.login, name, certKey);
      var cfg := Configured(was, SshS, f.port, f.settings, identity.value);
      if cfg == SshConfigP(SshConfig(None, None, "")) {
        if was.Some? { Remove(was.value.0); }
        return Ok(None);
      }
      var id;
      if was.Some? {
        id := was.value.0;
        Update(id, cfg);
      } else {
        id := Insert(cfg);
      }
      PutAfterDrops(start, e, id, cfg);
      r := Ok(Some(id));
    }

    /** The edit `SaveGroupForm` in place: the SSH slot first, the group last. */
    method SaveGroupForm(f: GroupForm) returns (r: Result<Id, FormError>)
      requires HS.IdsBelow(rows, next)
      modifies this
      ensures match HostForms.SaveGroupForm(old(rows), old(next), f, certKey)
        case Err(e) => r == Err(e)
        case Ok((w, gid, n)) => r == Ok(gid) && rows == w && next == n
      ensures WellFormed(old(rows)) && r.Ok? ==> SF.GroupFormSaved(old(rows), rows, old(next), r.value, f, certKey)
    {
      hide CheckParent, Trim, SaveGroupSlot, SF.GroupFormSaved, WellFormed;
      SaveGroupFormMeans(rows, next, f, certKey);
      if Trim(f.name) == "" { return Err(Invalid); }
      var refused := CheckNewParent(f.id, f.parentId);
      if refused.Some? { return Err(refused.value); }
      if !f.linksOk { return Err(Missing); }
      var was := ExistingGroup(rows, f.id);
      InlineIsNoConfig(rows, GroupSshId(was), SshS);
      var ssh := SaveGroupSsh(ConfigOf(rows, GroupSshId(was), SshS), InlineOfConfig(rows, GroupSshId(was)), f.ssh,
        Trim(f.name));
      if ssh.Err? { return Err(ssh.error); }
      var g := if was.Some? then was.value else NewGroup();
      var gid := PutRow(if was.Some? then f.id else None,
                        GroupP(g.(name := Trim(f.name), parentId := f.parentId, sshConfigId := ssh.value)));
      r := Ok(gid);
    }

    /** Move what sits in a group up to its parent: hosts first, then sub-groups. */
    method LiftMembers(id: Id, parent: Option<Id>, hosts: bool)
      modifies this`rows
      ensures rows == map x | x in old(rows) :: if old(rows)[x].HostP? == hosts then Lifted(old(rows)[x], id, parent)
          else old(rows)[x]
    {
      ghost var was := rows;
      var left := rows.Keys;
      while left != {}
        invariant left <= was.Keys == rows.Keys
        invariant forall x :: x in was ==>
          rows[x] == if x !in left && was[x].HostP? == hosts then Lifted(was[x], id, parent) else was[x]
      {
        var x :| x in left;
        left := left - {x};
        if rows[x].HostP? == hosts && GroupRef(rows[x]) == Some(id) {
          Update(x, Lifted(rows[x], id, parent));
        }
      }
    }

    /** Members first move up a level; then the group goes with its SSH slot. */
    method DeleteGroup(id: Id)
      modifies this`rows
      ensures rows == HostForms.DeleteGroup(old(rows), id)
    {
      if id !in rows || !rows[id].GroupP? { return; }
      var g := rows[id].group;
      ghost var was := rows;
      LiftMembers(id, g.parentId, true);
      LiftMembers(id, g.parentId, false);
      assert rows == MembersMoved(was, id);
      SameSlots(was, id, g.sshConfigId);
      RemoveSlot(ConfigOf(rows, g.sshConfigId, SshS), InlineOfConfig(rows, g.sshConfigId));
      Remove(id);
    }

    /** The sub-groups of a group, each once. */
    method SubGroups(id: Id) returns (kids: seq<Id>)
      ensures AreKids(rows, id, kids)
    {
      kids := [];
      var left := rows.Keys;
      while left != {}
        invariant left <= rows.Keys
        invariant forall c :: c in kids <==>
            c in rows && c !in left && rows[c].GroupP? && rows[c].group.parentId == Some(id)
        invariant forall i, j :: 0 <= i < j < |kids| ==> kids[i] != kids[j]
      {
        var c :| c in left;
        left := left - {c};
        if rows[c].GroupP? && rows[c].group.parentId == Some(id) { kids := kids + [c]; }
      }
    }

    ghost function Now(): (s: State)
      reads this
      ensures s.rows == rows && s.next == next
    {
      State(rows, next)
    }

    /** Empty a group of its hosts; `ops` are the deletes this came to. */
    method DeleteHostsIn(id: Id) returns (ghost ops: seq<Op>)
      modifies this`rows
      ensures Ran(old(Now()), ops, certKey, bound) == Some(Now())
      ensures Shrunk(old(rows), rows)
      ensures forall x :: x in old(rows) && old(rows)[x].GroupP? ==> x in rows
      ensures forall x :: x in old(rows) && old(rows)[x].HostP? ==>
          (x in rows <==> old(rows)[x].host.groupId != Some(id))
    {
      ghost var was := rows;
      var listed := rows;
      var left := rows.Keys;
      ops := [];
      while left != {}
        invariant left <= was.Keys && Shrunk(was, rows)
        invariant Ran(old(Now()), ops, certKey, bound) == Some(Now())
        invariant forall x :: x in was && was[x].GroupP? ==> x in rows
        invariant forall x :: x in was && was[x].HostP? ==>
            (x in rows <==> x in left || was[x].host.groupId != Some(id))
      {
        var x :| x in left;
        left := left - {x};
        if listed[x].HostP? && listed[x].host.groupId == Some(id) {
          ghost var before := rows;
          DeleteHostTouches(rows, x, bound);
          ghost var m := Now();
          hide DeleteHost, WellFormed, Ran;
          Delete(x);
          ShrunkTwice(was, before, rows);
          RanStep(old(Now()), ops, m, DeleteHostOp(x), Now(), certKey, bound);
          ops := ops + [DeleteHostOp(x)];
        }
      }
    }

    /** The hosts of a group whose sub-groups are gone, then the group. */
    method DeleteTop(ghost v: Vault, id: Id, ghost kids: seq<Id>) returns (ghost ops: seq<Op>)
      requires F.Acyclic(GroupTree(v)) && id in v && v[id].GroupP? && AreKids(v, id, kids)
      requires GroupsGone(v, rows, BelowAny(v, kids))
      modifies this`rows
      ensures GroupsGone(v, rows, Below(v, id)) && Ran(old(Now()), ops, certKey, bound) == Some(Now())
    {
      hide Ran, GroupsGone, Below, BelowAny, GroupTree, HostForms.DeleteGroup, Shrunk;
      ghost var w, start := rows, Now();
      ops := DeleteHostsIn(id);
      ghost var u, m := rows, Now();
      OnlyTheGroupLeft(v, w, u, id, kids);
      DeleteGroup(id);
      LastStep(v, w, u, id, kids);
      RanStep(start, ops, m, DeleteGroupOp(id), Now(), certKey, bound);
      ops := ops + [DeleteGroupOp(id)];
    }

    /** Bottom-up removal of a whole group. On a forest of groups it ends,
        and exactly the groups of the subtree and the hosts in them are gone. */
    method DeleteGroupRecursive(id: Id) returns (ghost ops: seq<Op>)
      requires F.Acyclic(GroupTree(rows))
      modifies this`rows
      ensures Ran(old(Now()), ops, certKey, bound) == Some(Now())
      ensures if id in old(rows) && old(rows)[id].GroupP? then GroupsGone(old(rows), rows, Below(old(rows), id))
          else rows == old(rows)
      ensures Good(old(Now())) ==> WellFormed(rows)
      decreases Subtree(rows, id)
    {
      ops := [];
      if id !in rows || !rows[id].GroupP? { return; }
      hide Ran, WellFormed, GroupsGone, Below, BelowAny, GroupTree, HostForms.DeleteGroup, Shrunk, GroupsPlain, Good;
      ghost var v, start := rows, Now();
      var kids := SubGroups(id);
      NothingGone(v, kids);
      NothingRan(start, certKey, bound);
      for i := 0 to |kids|
        invariant GroupsGone(v, rows, BelowAny(v, kids[..i]))
        invariant Ran(start, ops, certKey, bound) == Some(Now())
      {
        ghost var w, m := rows, Now();
        NextKidIsWhole(v, w, id, kids, i);
        KidTurn(v, w, id, kids, i);
        ghost var more := DeleteGroupRecursive(kids[i]);
        RanThen(start, ops, m, more, certKey, bound);
        ops := ops + more;
        GoneTwice(v, w, rows, BelowAny(v, kids[..i]), Below(v, kids[i]));
        OneMoreKid(v, kids, i);
      }
      assert kids[..|kids|] == kids;
      ghost var m := Now();
      ghost var last := DeleteTop(v, id, kids);
      RanThen(start, ops, m, last, certKey, bound);
      ops := ops + last;
      if Good(start) {
        RanKeepsGood(start, ops, certKey, bound);
        GoodIsWellFormed(Now());
      }
    }
  
    // ----- copying a tree -----

    /** The copy of the group alone. */
    method CopyGroupRow(id: Id, parent: Option<Id>, title: Option<string>, facts: Facts)
      returns (r: Result<Id, FormError>, ghost ops: seq<Op>)
      requires Fine(Now()) && id in rows && rows[id].GroupP?
      modifies this
      ensures r.Ok? ==> Fine(Now()) && Ran(old(Now()), ops, certKey, bound) == Some(Now())
      ensures r.Ok? ==> Copies(old(rows), rows, map[id := r.value], id, parent, title, facts)
      ensures r.Ok? && parent.Some? ==> parent.value in old(rows)
      ensures r.Ok? <==> Points(old(rows), parent, GroupS) && NodeCopies(old(rows), id, title, facts, certKey, id)
    {
      ghost var start := Now();
      var f := GroupCopyForm(rows, id, parent, title, facts);
      FineParts(start);
      TopCopies(start, id, parent, title, facts, certKey);
      hide *;
      ops := [];
      r := SaveGroupForm(f);
      if r.Ok? {
        GroupStart(start, id, parent, title, facts, certKey, bound);
        NothingRan(start, certKey, bound);
        RanStep(start, ops, start, SaveGroupFormOp(f), Now(), certKey, bound);
        ops := ops + [SaveGroupFormOp(f)];
      }
    }

    /** The copy of one host of the group. */
    method CopyHostOf(
      ghost v: Vault, ghost id: Id, n: Id, ghost parent: Option<Id>, ghost title: Option<string>, facts: Facts,
      ghost c: map<Id, Id>, x: Id)
      returns (r: Result<Id, FormError>, ghost op: Op)
      requires Fine(Now()) && Copies(v, rows, c, id, parent, title, facts) && id in c && c[id] == n
      requires HostIn(v, id, x) && x !in c && Closed(v) && id in v && v[id].GroupP?
      modifies this
      ensures r.Ok? ==> Fine(Now()) && Step(old(Now()), op, certKey, bound, Now())
      ensures r.Ok? ==> Copies(v, rows, c[x := r.value], id, parent, title, facts)
      ensures if r.Ok? then NodeCopies(v, id, title, facts, certKey, x) else Blocked(v, id, title, facts, certKey)
    {
      ghost var s := Now();
      FineParts(s);
      HostCopiesOrBlocks(v, s, c, id, parent, title, facts, certKey, x);
      hide *;
      op := CopyHostOp(x, None, Some(n), facts.tokenMode(x), facts.sectionOk(x));
      r := CopyRow(x, None, Some(n), facts.tokenMode(x), facts.sectionOk(x));
      if r.Ok? { HostTurn(v, s, c, id, parent, title, facts, x, certKey, bound); }
    }

    /** Copies of the hosts of group `id`, into its copy `n`. */
    method CopyHostsOf(
      ghost v: Vault, id: Id, n: Id, ghost parent: Option<Id>, ghost title: Option<string>, facts: Facts)
      returns (r: Result<(), FormError>, ghost c: map<Id, Id>, ghost ops: seq<Op>)
      requires Fine(Now()) && Copies(v, rows, map[id := n], id, parent, title, facts) && id in v && v[id].GroupP?
      requires Closed(v) && NodeCopies(v, id, title, facts, certKey, id)
      modifies this
      ensures r.Ok? ==> Fine(Now()) && Ran(old(Now()), ops, certKey, bound) == Some(Now())
      ensures r.Ok? ==> Copies(v, rows, c, id, parent, title, facts) && CopiedSo(v, c, id, []) && id in c && c[id] == n
      ensures if r.Ok? then AllCopy(v, id, title, facts, certKey, c) else Blocked(v, id, title, facts, certKey)
    {
      ghost var start := Now();
      var listed, left := rows, rows.Keys;
      c, ops := map[id := n], [];
      NothingRan(start, certKey, bound);
      HostsOfOriginal(v, rows, n, id, parent, title, facts);
      assert AllCopy(v, id, title, facts, certKey, c);
      hide Fine, Copies, Ran, Step, CopiedSo, Kept, NodeCopies, AllCopy, Blocked;
      while left != {}
        invariant left <= listed.Keys && Fine(Now()) && Ran(start, ops, certKey, bound) == Some(Now())
        invariant Copies(v, rows, c, id, parent, title, facts) && id in c && c[id] == n
        invariant forall x: Id :: x in c <==> x == id || (HostIn(v, id, x) && x !in left)
        invariant AllCopy(v, id, title, facts, certKey, c)
      {
        var x :| x in left;
        left := left - {x};
        if listed[x].HostP? && listed[x].host.groupId == Some(id) {
          assert HostIn(listed, id, x);
          ghost var s := Now();
          var copied;
          ghost var op;
          copied, op := CopyHostOf(v, id, n, parent, title, facts, c, x);
          if copied.Err? { return Err(copied.error), c, ops; }
          RanStep(start, ops, s, op, Now(), certKey, bound);
          OneMoreCopies(v, id, title, facts, certKey, c, x, copied.value);
          ops := ops + [op];
          c := c[x := copied.value];
        }
      }
      HostsOnly(v, c, id);
      r := Ok(());
    }

    /** Copies of the sub-groups `kids`, each with everything inside it, into the copy `n` of their group. */
    method CopySubgroupsOf(
      ghost v: Vault, ghost start: State, kids: seq<Id>, ghost id: Id, n: Id, ghost parent: Option<Id>,
      ghost title: Option<string>, facts: Facts, ghost c: map<Id, Id>, ghost ops: seq<Op>)
      returns (r: Result<(), FormError>, ghost all: map<Id, Id>, ghost allOps: seq<Op>)
      requires Setting(v, id, parent, kids) && id in c && c[id] == n
      requires Progress(v, start, Now(), ops, c, id, parent, title, facts, certKey, bound, [])
      modifies this
      ensures r.Ok? ==>
        && Progress(v, start, Now(), allOps, all, id, parent, title, facts, certKey, bound, kids)
        && id in all && all[id] == n
      ensures r.Err? ==> Blocked(v, id, title, facts, certKey)
      decreases Subtree(v, id), 0
    {
      hide *;
      all, allOps := c, ops;
      assert kids[..0] == [];
      for i := 0 to |kids|
        invariant Progress(v, start, Now(), allOps, all, id, parent, title, facts, certKey, bound, kids[..i])
        invariant id in all && all[id] == n
      {
        ghost var s := Now();
        SubgroupBegins(v, start, s, allOps, all, id, parent, title, facts, certKey, bound, kids, i);
        var sub;
        ghost var copies, subOps;
        sub, copies, subOps := CopyGroupTree(kids[i], Some(n), None, facts);
        if sub.Err? { return Err(sub.error), all, allOps; }
        SubgroupEnds(v, start, s, allOps, all, id, parent, title, facts, certKey, bound, kids, i, Now(), subOps,
          copies);
        all, allOps := all + copies, allOps + subOps;
      }
      assert kids[..|kids|] == kids;
      r := Ok(());
    }

    /** Copy a group with everything inside it under `parent`, which is not
        inside it. It ends, the original stays as it is, and the copy has one
        node for each node of the subtree, placed and filled alike; it succeeds
        exactly when every one of them can be copied. */
    method CopyGroupTree(id: Id, parent: Option<Id>, title: Option<string>, facts: Facts)
      returns (r: Result<Id, FormError>, ghost c: map<Id, Id>, ghost ops: seq<Op>)
      requires Fine(Now()) && (parent.Some? ==> !F.Under(GroupTree(rows), id, parent.value))
      modifies this
      ensures r.Ok? ==> Fine(Now()) && Ran(old(Now()), ops, certKey, bound) == Some(Now())
      ensures r.Ok? ==> Copies(old(rows), rows, c, id, parent, title, facts) && c[id] == r.value
      ensures r.Ok? ==> forall x: Id :: x in c <==> x in Inside(old(rows), id)
      ensures r.Ok? <==> CanCopy(old(rows), id, parent, title, facts, certKey)
      decreases Subtree(rows, id), 1
    {
      c, ops := map[], [];
      if id !in rows || !rows[id].GroupP? { return Err(Missing), c, ops; }
      ghost var v, start := rows, Now();
      FineParts(start);
      hide *;
      var top;
      top, ops := CopyGroupRow(id, parent, title, facts);
      if top.Err? {
        TopBlocks(v, id, parent, title, facts, certKey);
        return top, c, ops;
      }
      var n := top.value;
      ghost var m := Now();
      CanCopyIs(v, id, parent, title, facts, certKey);
      var copied;
      ghost var more;
      copied, c, more := CopyHostsOf(v, id, n, parent, title, facts);
      if copied.Err? { return Err(copied.error), c, ops; }
      CopyBegins(v, start, m, ops, Now(), more, c, id, parent, title, facts, certKey, bound);
      var kids := SubGroups(id);
      KidsAreOld(v, rows, c, id, parent, title, facts, kids);
      SettingIs(v, id, parent, kids);
      copied, c, ops := CopySubgroupsOf(v, start, kids, id, n, parent, title, facts, c, ops + more);
      if copied.Err? { return Err(copied.error), c, ops; }
      CopyEnds(v, start, Now(), ops, c, id, parent, title, facts, certKey, bound, kids);
      r := Ok(n);
    }

    /** A second copy of a whole group, beside the first. */
    method DuplicateGroup(id: Id, facts: Facts) returns (r: Result<Id, FormError>, ghost c: map<Id, Id>)
      requires Fine(Now())
      modifies this
      ensures r.Ok? ==> Fine(Now()) && id in old(rows) && old(rows)[id].GroupP?
      ensures r.Ok? ==> Copies(old(rows), rows, c, id, old(rows)[id].group.parentId,
          Some(old(rows)[id].group.name + " copy"), facts)
      ensures r.Ok? ==> (forall x: Id :: x in c <==> x in Inside(old(rows), id)) && c[id] == r.value
      ensures r.Ok? <==>
        && id in old(rows) && old(rows)[id].GroupP?
        && !Blocked(old(rows), id, Some(old(rows)[id].group.name + " copy"), facts, certKey)
    {
      c := map[];
      if id !in rows || !rows[id].GroupP? { return Err(Missing), c; }
      var parent, title := rows[id].group.parentId, Some(rows[id].group.name + " copy");
      if parent.Some? { ChildIsNotAbove(GroupTree(rows), parent.value, id); }
      assert Points(rows, parent, GroupS) by { ParentPoints(Now(), id); }
      CanCopyIs(rows, id, parent, title, facts, certKey);
      hide Copies, Good, Inside, CanCopy, Blocked;
      ghost var ops;
      r, c, ops := CopyGroupTree(id, parent, title, facts);
    }
  }

  /** Moving members changes no config and no identity. */
  lemma SameSlots(v: Vault, id: Id, ref: Option<Id>)
    requires id in v && v[id].GroupP?
    ensures ConfigOf(MembersMoved(v, id), ref, SshS) == ConfigOf(v, ref, SshS)
    ensures InlineOfConfig(MembersMoved(v, id), ref) == InlineOfConfig(v, ref)
  {
  }

  lemma InlineIsNoConfig(v: Vault, ref: Option<Id>, sort: Sort)
    requires sort in {SshS, TelnetS, WebDavS}
    ensures InlineOfConfig(v, ref).Some? ==> InlineOfConfig(v, ref).value.0 in v
    ensures InlineOfConfig(v, ref).Some? && ConfigOf(v, ref, sort).Some? ==>
        InlineOfConfig(v, ref).value.0 != ConfigOf(v, ref, sort).value.0
  {
  }

  lemma NextGrows(v: Vault, next: Id, sort: Sort, was: Option<(Id, Payload)>, inline: Option<(Id, Identity)>,
      f: Option<SectionForm>,
                  name: string, certKey: CertKeys)
    requires SaveSlot(v, next, sort, was, inline, f, name, certKey).Ok?
    ensures next <= SaveSlot(v, next, sort, was, inline, f, name, certKey).value.0.next
  {
    hide SaveLogin, Configured;
    if f.Some? { DropsInline(v, next, inline, f.value.login, name, certKey); }
  }

  /** A login drops at most its inline identity. */
  lemma DropsInline(v: Vault, next: Id, inline: Option<(Id, Identity)>, c: Login, name: string, certKey: CertKeys)
    requires SaveLogin(v, next, inline, c, name, certKey).Ok?
    ensures SaveLogin(v, next, inline, c, name, certKey).value.0.drops <= if inline.Some? then {inline.value.0} else {}
    ensures next <= SaveLogin(v, next, inline, c, name, certKey).value.0.next
  {
    hide LoginKey, Trim;
  }

  lemma PutAfterDrops(v: Vault, e: Edit, id: Id, p: Payload)
    requires id !in e.drops
    ensures Apply(v, e.Put(id, p)) == Apply(v, e)[id := p]
  {
  }
}
