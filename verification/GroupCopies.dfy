/** Copying a group with everything inside it next to the original: what the
    copy has to look like, and why making it terminates. */
module GroupCopies {
  import opened Wrappers
  import opened Schema
  import opened VaultGraph
  import opened BridgePlans
  import opened HostForms
  import opened GroupTrees
  import opened HostRuns
  import opened CopiedLogins
  import opened Text
  import HS = HostSaves
  import F = Forest

  /** What a copy needs to know about stored rows besides the fields modelled
      here: WebDAV modes and validators, the chain and proxy a group names, and
      how stored environment settings are cleaned. */
  datatype Facts = Facts(
    tokenMode: Id -> bool, sectionOk: Id -> bool, linksOk: Id -> bool, clean: string -> string)

  /** The SSH defaults of a group as a section; a group without any gives an empty one. */
  function Defaults(v: Vault, ref: Option<Id>, clean: string -> string): SectionForm {
    match ConfigOf(v, ref, SshS)
    case Some((_, SshConfigP(c))) => SectionForm(c.port, FlatLogin(v, c.identityId, true), _ => clean(c.extras))
    case _ => SectionForm(None, FlatLogin(v, None, true), _ => clean(""))
  }

  /** The form that copies group `id` under `parent`. */
  function GroupCopyForm(v: Vault, id: Id, parent: Option<Id>, title: Option<string>, facts: Facts): GroupForm
    requires id in v && v[id].GroupP?
  {
    var g := v[id].group;
    GroupForm(None, if title.Some? then title.value else g.name, parent, facts.linksOk(id),
              Defaults(v, g.sshConfigId, facts.clean))
  }

  // ----- adding rows -----

  predicate IsNode(p: Payload) { p.HostP? || p.GroupP? }

  /** A config, or the login of one. */
  predicate IsOwned(p: Payload) { IsConfig(p) || IsInline(p) }

  /** Every new row is one of the nodes in `made`, a config or the login of one. */
  ghost predicate NewNodes(v: Vault, w: Vault, made: set<Id>) {
    forall x :: x in w && x !in v ==> if x in made then IsNode(w[x]) else IsOwned(w[x])
  }

  /** The edit only creates configs and their logins, from `lo` on. */
  ghost predicate OnlyConfigs(e: Edit, lo: Id) {
    e.drops == {} && lo <= e.next && forall x :: x in e.puts ==> lo <= x < e.next && IsOwned(e.puts[x])
  }

  lemma NewLogin(v: Vault, next: Id, c: Login, name: string, certKey: CertKeys)
    requires SaveLogin(v, next, None, c, name, certKey).Ok?
    ensures OnlyConfigs(SaveLogin(v, next, None, c, name, certKey).value.0, next)
  {
    hide LoginKey, Trim;
  }

  lemma NewSection(now: Vault, next: Id, sort: Sort, f: Option<SectionForm>, name: string, certKey: CertKeys)
    requires SaveSlot(now, next, sort, None, None, f, name, certKey).Ok?
    ensures OnlyConfigs(SaveSlot(now, next, sort, None, None, f, name, certKey).value.0, next)
  {
    hide SaveLogin;
    if f.Some? { NewLogin(now, next, f.value.login, name, certKey); }
  }

  lemma NewDefaults(v: Vault, next: Id, f: SectionForm, name: string, certKey: CertKeys)
    requires SaveGroupSlot(v, next, None, None, f, name, certKey).Ok?
    ensures OnlyConfigs(SaveGroupSlot(v, next, None, None, f, name, certKey).value.0, next)
  {
    hide SaveLogin;
    NewLogin(v, next, f.login, name, certKey);
  }

  /** One new node `o`, with its configs. */
  ghost predicate AddsNode(v: Vault, next: Id, w: Vault, o: Id, next2: Id) {
    && Kept(v, w) && NewNodes(v, w, {o})
    && next <= o < next2 && o in w && (forall x :: x in w ==> x in v || next <= x < next2)
  }

  lemma ConfigsAdd(v: Vault, e: Edit, lo: Id)
    requires HS.IdsBelow(v, lo) && OnlyConfigs(e, lo)
    ensures Kept(v, Apply(v, e)) && NewNodes(v, Apply(v, e), {}) && HS.IdsBelow(Apply(v, e), e.next)
    ensures lo <= e.next && forall x :: x in Apply(v, e) ==> x in v || lo <= x < e.next
  {
  }

  lemma NodeAdds(v: Vault, lo: Id, m: Vault, at: Id, p: Payload)
    requires HS.IdsBelow(v, lo) && lo <= at && IsNode(p)
    requires Kept(v, m) && NewNodes(v, m, {}) && (forall x :: x in m ==> x in v || lo <= x < at)
    ensures AddsNode(v, lo, m[at := p], at, at + 1)
  {
  }

  lemma MoreConfigs(v: Vault, lo: Id, m: Vault, mid: Id, w: Vault, hi: Id)
    requires Kept(v, m) && NewNodes(v, m, {}) && lo <= mid && (forall x :: x in m ==> x in v || lo <= x < mid)
    requires Kept(m, w) && NewNodes(m, w, {}) && mid <= hi && (forall x :: x in w ==> x in m || mid <= x < hi)
    ensures Kept(v, w) && NewNodes(v, w, {}) && lo <= hi && (forall x :: x in w ==> x in v || lo <= x < hi)
  {
  }

  /** A new group is one new node, filled from the form. */
  lemma NewGroupAdds(v: Vault, next: Id, f: GroupForm, certKey: CertKeys)
    requires HS.IdsBelow(v, next) && f.id.None? && SaveGroupForm(v, next, f, certKey).Ok?
    ensures
      var (w, o, next2) := SaveGroupForm(v, next, f, certKey).value;
      && AddsNode(v, next, w, o, next2)
      && w[o].GroupP? && w[o].group.name == Trim(f.name) && w[o].group.parentId == f.parentId
      && DefaultsSaved(w, w[o].group.sshConfigId, f.ssh)
  {
    var made := SaveGroupSlot(v, next, None, None, f.ssh, Trim(f.name), certKey);
    var (e, ssh) := made.value;
    NewDefaults(v, next, f.ssh, Trim(f.name), certKey);
    ConfigsAdd(v, e, next);
    DefaultsAreSaved(v, next, f.ssh, Trim(f.name), certKey);
    assert forall x :: x in Apply(v, e) ==> x < e.next;
    hide SaveGroupSlot, Trim, CheckParent, Apply, OnlyConfigs, Kept, NewNodes, AddsNode, DefaultsSaved, HS.IdsBelow;
    var g := GroupP(NewGroup().(name := Trim(f.name), parentId := f.parentId, sshConfigId := ssh));
    NodeAdds(v, next, Apply(v, e), e.next, g);
    PutIsLast(Apply(v, e), e.next, g);
    DefaultsStay(Apply(v, e), Apply(v, e)[e.next := g], ssh, f.ssh);
  }

  /** What a saved new host looks like. */
  lemma NewHostShape(v: Vault, next: Id, f: HostForm, certKey: CertKeys)
    returns (e1: Edit, e2: Edit, e3: Edit, ssh: Option<Id>, telnet: Option<Id>, webdav: Option<Id>)
    requires f.id.None? && SaveHost(v, next, f, certKey).Ok?
    ensures SaveSlot(v, next, SshS, None, None, f.ssh, FormName(f), certKey) == Ok((e1, ssh))
    ensures SaveSlot(Apply(v, e1), e1.next, TelnetS, None, None, f.telnet, FormName(f), certKey) == Ok((e2, telnet))
    ensures SaveSlot(Apply(Apply(v, e1), e2), e2.next, WebDavS, None, None, WebDavSection(f.webdav), FormName(f),
        certKey) ==
              Ok((e3, webdav))
    ensures SaveHost(v, next, f, certKey).value ==
              PutOwner(Apply(Apply(Apply(v, e1), e2), e3), e3.next, None,
                HostP(SavedHost(None, f, ssh, telnet, webdav)))
  {
    hide SaveSlot, Trim, Apply, FormName, SavedHost, WebDavSection;
    var s1 := SaveSlot(v, next, SshS, None, None, f.ssh, FormName(f), certKey);
    e1, ssh := s1.value.0, s1.value.1;
    var s2 := SaveSlot(Apply(v, e1), e1.next, TelnetS, None, None, f.telnet, FormName(f), certKey);
    e2, telnet := s2.value.0, s2.value.1;
    var s3 := SaveSlot(Apply(Apply(v, e1), e2), e2.next, WebDavS, None, None, WebDavSection(f.webdav), FormName(f),
      certKey);
    e3, webdav := s3.value.0, s3.value.1;
  }

  /** The host a new form leaves behind, and its sections. */
  ghost predicate HostFromForm(v: Vault, w: Vault, o: Id, f: HostForm) {
    && o in w && w[o].HostP?
    && w[o].host.name == FormName(f) && w[o].host.address == Trim(f.address) && w[o].host.groupId == f.groupId
    && w[o].host.tagIds == f.tagIds && w[o].host.notes == f.notes && w[o].host.extras == f.extras("")
    && (f.ssh.Some? ==>
          NewSsh(v, w, w[o].host.sshConfigId) && SectionSaved(w, w[o].host.sshConfigId, SshS, f.ssh.value))
    && (f.telnet.Some? ==> SectionSaved(w, w[o].host.telnetConfigId, TelnetS, f.telnet.value))
    && (f.webdav.Some? ==> SectionSaved(w, w[o].host.webdavConfigId, WebDavS, WebDavSection(f.webdav).value))
  }

  predicate NewSsh(v: Vault, w: Vault, ref: Option<Id>) {
    ref.Some? && ref.value in w && ref.value !in v && w[ref.value].SshConfigP?
  }

  lemma SectionIsThere(v: Vault, next: Id, f: SectionForm, name: string, certKey: CertKeys)
    requires HS.IdsBelow(v, next) && SaveSlot(v, next, SshS, None, None, Some(f), name, certKey).Ok?
    ensures var (e, ssh) := SaveSlot(v, next, SshS, None, None, Some(f), name, certKey).value;
        NewSsh(v, Apply(v, e), ssh)
  {
    hide SaveLogin;
    NewLogin(v, next, f.login, name, certKey);
  }

  lemma SshStays(v: Vault, m: Vault, w: Vault, ref: Option<Id>)
    requires NewSsh(v, m, ref) && Kept(m, w)
    ensures NewSsh(v, w, ref)
  {
  }

  lemma PutIsLast(m: Vault, at: Id, p: Payload)
    requires forall x :: x in m ==> x < at
    ensures Kept(m, m[at := p]) && m[at := p][at] == p
  {
  }

  lemma BelowNext(v: Vault, lo: Id, m: Vault, hi: Id)
    requires HS.IdsBelow(v, lo) && lo <= hi && forall x :: x in m ==> x in v || lo <= x < hi
    ensures forall x :: x in m ==> x < hi
  {
  }

  lemma NewHostAdds(v: Vault, next: Id, f: HostForm, certKey: CertKeys)
    requires HS.IdsBelow(v, next) && f.id.None? && SaveHost(v, next, f, certKey).Ok?
    ensures
      var (w, o, next2) := SaveHost(v, next, f, certKey).value;
      AddsNode(v, next, w, o, next2) && HostFromForm(v, w, o, f)
  {
    hide SaveSlot, Trim, Apply, FormName, WebDavSection, SaveHost, OnlyConfigs, Kept, NewNodes, AddsNode,
         HS.IdsBelow, NewSsh, SectionSaved;
    var e1, e2, e3, ssh, telnet, webdav := NewHostShape(v, next, f, certKey);
    var name := FormName(f);
    NewSection(v, next, SshS, f.ssh, name, certKey);
    ConfigsAdd(v, e1, next);
    var v1 := Apply(v, e1);
    NewSection(v1, e1.next, TelnetS, f.telnet, name, certKey);
    ConfigsAdd(v1, e2, e1.next);
    var v2 := Apply(v1, e2);
    NewSection(v2, e2.next, WebDavS, WebDavSection(f.webdav), name, certKey);
    ConfigsAdd(v2, e3, e2.next);
    var v3 := Apply(v2, e3);
    MoreConfigs(v, next, v1, e1.next, v2, e2.next);
    MoreConfigs(v, next, v2, e2.next, v3, e3.next);
    var h := HostP(SavedHost(None, f, ssh, telnet, webdav));
    NodeAdds(v, next, v3, e3.next, h);
    BelowNext(v, next, v3, e3.next);
    PutIsLast(v3, e3.next, h);
    if f.ssh.Some? {
      SectionIsThere(v, next, f.ssh.value, name, certKey);
      SshStays(v, v1, v2, ssh);
      SshStays(v, v2, v3, ssh);
      SshStays(v, v3, v3[e3.next := h], ssh);
      SectionLasts(v, next, SshS, f.ssh.value, name, certKey, v2, v3, v3[e3.next := h]);
    }
    KeptSelf(v2);
    KeptSelf(v3);
    if f.telnet.Some? {
      SectionLasts(v1, e1.next, TelnetS, f.telnet.value, name, certKey, v2, v3, v3[e3.next := h]);
    }
    if f.webdav.Some? {
      WebDavIsSection(f);
      SectionLasts(v2, e2.next, WebDavS, WebDavSection(f.webdav).value, name, certKey, v3, v3, v3[e3.next := h]);
    }
    NameOfHost(f, ssh, telnet, webdav);
  }

  lemma KeptSelf(v: Vault)
    ensures Kept(v, v)
  {
  }

  lemma WebDavIsSection(f: HostForm)
    ensures f.webdav.Some? <==> WebDavSection(f.webdav).Some?
  {
  }

  /** A saved section is still as it was saved, two more sections and an owner later. */
  lemma SectionLasts(
    now: Vault, next: Id, sort: Sort, f: SectionForm, name: string, certKey: CertKeys, w: Vault, w2: Vault, w3: Vault)
    requires SaveSlot(now, next, sort, None, None, Some(f), name, certKey).Ok? && sort in {SshS, TelnetS, WebDavS}
    requires HS.IdsBelow(now, next)
    requires
      var w1 := Apply(now, SaveSlot(now, next, sort, None, None, Some(f), name, certKey).value.0);
      Kept(w1, w) && Kept(w, w2) && Kept(w2, w3)
    ensures SectionSaved(w3, SaveSlot(now, next, sort, None, None, Some(f), name, certKey).value.1, sort, f)
  {
    var (e, ref) := SaveSlot(now, next, sort, None, None, Some(f), name, certKey).value;
    SectionIsSaved(now, next, sort, f, name, certKey);
    hide SaveSlot, SectionSaved, Apply, Kept;
    SectionStays(Apply(now, e), w, ref, sort, f);
    SectionStays(w, w2, ref, sort, f);
    SectionStays(w2, w3, ref, sort, f);
  }

  lemma NameOfHost(f: HostForm, ssh: Option<Id>, telnet: Option<Id>, webdav: Option<Id>)
    ensures SavedHost(None, f, ssh, telnet, webdav).name == FormName(f)
  {
  }

  // ----- copies of hosts -----

  function Title(name: string, address: string): string { if Trim(name) == "" then Trim(address) else Trim(name) }

  /** The stored SSH settings of `h` are those of `k` too, and its login reads alike. */
  ghost predicate SshTwin(v: Vault, h: Host, w: Vault, k: Host) {
    IsSsh(v, h.sshConfigId) ==>
      var from, to := SshAt(v, h.sshConfigId), SshAt(w, k.sshConfigId);
      && IsSsh(w, k.sshConfigId) && to.port == from.port && to.extras == from.extras
      && LoginTwin(v, from.identityId, w, to.identityId, true)
  }

  predicate IsSort(v: Vault, ref: Option<Id>, sort: Sort) {
    ref.Some? && ref.value in v && SortOf(v[ref.value]) == sort
  }

  ghost predicate TelnetTwin(v: Vault, h: Host, w: Vault, k: Host) {
    IsSort(v, h.telnetConfigId, TelnetS) ==>
      && IsSort(w, k.telnetConfigId, TelnetS)
      && var from, to := v[h.telnetConfigId.value].telnet, w[k.telnetConfigId.value].telnet;
         && to.port == NonZero(from.port) && to.extras == from.extras
         && LoginTwin(v, from.identityId, w, to.identityId, false)
  }

  ghost predicate WebDavTwin(v: Vault, h: Host, w: Vault, k: Host, token: bool) {
    IsSort(v, h.webdavConfigId, WebDavS) ==>
      && IsSort(w, k.webdavConfigId, WebDavS)
      && var from, to := v[h.webdavConfigId.value].webdav, w[k.webdavConfigId.value].webdav;
         && to.extras == from.extras
         && (if token then TokenTwin(v, from.identityId, w, to.identityId)
             else LoginTwin(v, from.identityId, w, to.identityId, false))
  }

  ghost predicate SectionTwins(v: Vault, h: Host, w: Vault, k: Host, token: bool) {
    SshTwin(v, h, w, k) && TelnetTwin(v, h, w, k) && WebDavTwin(v, h, w, k, token)
  }

  ghost predicate HostTwin(
    v: Vault, h: Host, w: Vault, k: Host, title: string, groupId: Option<Id>, token: bool)
  {
    && k.name == Title(title, h.address) && k.address == Trim(h.address) && k.groupId == groupId
    && k.tagIds == h.tagIds && k.notes == h.notes && k.extras == h.extras
    && k.osName == (if h.osName == Some("") then None else h.osName)
    && k.serialConfigId == None && k.externalId == None
    && SectionTwins(v, h, w, k, token)
  }

  lemma RawSshAdds(v: Vault, next: Id, w: Vault, o: Id, next2: Id, src: Id)
    requires AddsNode(v, next, w, o, next2) && src in v && v[src].HostP? && w[o].HostP?
    requires IsSsh(v, v[src].host.sshConfigId) ==> NewSsh(v, w, w[o].host.sshConfigId)
    ensures
      var raw := RawSsh(v, w, src, o);
      && AddsNode(v, next, raw, o, next2) && raw[o] == w[o]
      && (forall x :: x in w && !w[x].SshConfigP? ==> x in raw && raw[x] == w[x])
  {
  }

  /** The raw settings go into the copy's config; the login stays. */
  lemma RawSshIs(v: Vault, w: Vault, src: Id, o: Id)
    requires src in v && v[src].HostP? && o in w && w[o].HostP?
    requires IsSsh(v, v[src].host.sshConfigId) && IsSsh(w, w[o].host.sshConfigId)
    ensures
      var from, to := SshAt(v, v[src].host.sshConfigId), SshAt(w, w[o].host.sshConfigId);
      var raw := RawSsh(v, w, src, o);
      IsSsh(raw, w[o].host.sshConfigId) &&
      SshAt(raw, w[o].host.sshConfigId) == from.(identityId := to.identityId)
  {
  }

  lemma SavedSsh(w: Vault, ref: Option<Id>, f: SectionForm)
    requires SectionSaved(w, ref, SshS, f)
    ensures IsSsh(w, ref) && LoginSaved(w, SshAt(w, ref).identityId, f.login)
  {
    hide LoginSaved;
  }

  /** The SSH section of a copy, after the raw settings were put into it. */
  lemma SshIsTwin(v: Vault, w: Vault, src: Id, o: Id, f: HostForm)
    requires src in v && v[src].HostP? && o in w && w[o].HostP? && Kept(v, w)
    requires forall x :: x in w && !w[x].SshConfigP? ==> x in RawSsh(v, w, src, o) && RawSsh(v, w, src, o)[x] == w[x]
    requires IsSsh(v, v[src].host.sshConfigId) ==>
      && f.ssh.Some? && SectionSaved(w, w[o].host.sshConfigId, SshS, f.ssh.value)
      && f.ssh.value.login == FlatLogin(v, SshAt(v, v[src].host.sshConfigId).identityId, true)
    ensures SshTwin(v, v[src].host, RawSsh(v, w, src, o), w[o].host)
  {
    var h, k := v[src].host, w[o].host;
    if IsSsh(v, h.sshConfigId) {
      var raw := RawSsh(v, w, src, o);
      var i, j := SshAt(v, h.sshConfigId).identityId, SshAt(w, k.sshConfigId).identityId;
      hide SectionSaved, FlatLogin, RawSsh, Kept, LoginTwin, LoginSaved;
      SavedSsh(w, k.sshConfigId, f.ssh.value);
      RawSshIs(v, w, src, o);
      FlatTwin(v, i, w, j, true);
      TwinHasIdentity(v, i, w, j, true);
      TwinsStay(v, i, w, j, true, raw);
    }
  }

  lemma TwinHasIdentity(v: Vault, i: Option<Id>, w: Vault, j: Option<Id>, ssh: bool)
    requires LoginTwin(v, i, w, j, ssh)
    ensures j.Some? ==> IsIdentity(w, j)
  {
  }

  lemma SavedOther(w: Vault, ref: Option<Id>, sort: Sort, f: SectionForm)
    requires SectionSaved(w, ref, sort, f) && sort in {TelnetS, WebDavS}
    ensures IsSort(w, ref, sort) && LoginSaved(w, IdentityRef(w[ref.value]), f.login)
    ensures sort == TelnetS ==>
      w[ref.value].telnet.port == NonZero(f.port) && w[ref.value].telnet.extras == f.settings("")
    ensures sort == WebDavS ==> w[ref.value].webdav.extras == f.settings("")
  {
    hide LoginSaved;
  }

  lemma TelnetIsTwin(v: Vault, h: Host, w: Vault, k: Host, f: HostForm)
    requires Kept(v, w)
    requires IsSort(v, h.telnetConfigId, TelnetS) ==>
      && f.telnet.Some? && SectionSaved(w, k.telnetConfigId, TelnetS, f.telnet.value)
      && var c := v[h.telnetConfigId.value].telnet;
         && f.telnet.value.port == c.port && f.telnet.value.settings("") == c.extras
         && f.telnet.value.login == FlatLogin(v, c.identityId, false)
    ensures TelnetTwin(v, h, w, k)
  {
    if IsSort(v, h.telnetConfigId, TelnetS) {
      hide SectionSaved, FlatLogin, Kept, LoginTwin, LoginSaved;
      SavedOther(w, k.telnetConfigId, TelnetS, f.telnet.value);
      FlatTwin(v, v[h.telnetConfigId.value].telnet.identityId, w, w[k.telnetConfigId.value].telnet.identityId, false);
    }
  }

  function TokenLogin(c: Login, token: bool): Login { if token then c.(username := "", password := Some("")) else c }

  lemma WebDavIsTwin(v: Vault, h: Host, w: Vault, k: Host, f: HostForm, token: bool)
    requires Kept(v, w)
    requires IsSort(v, h.webdavConfigId, WebDavS) ==>
      && f.webdav.Some? && SectionSaved(w, k.webdavConfigId, WebDavS, WebDavSection(f.webdav).value)
      && var c := v[h.webdavConfigId.value].webdav;
         && f.webdav.value.section == c.extras
         && f.webdav.value.login == TokenLogin(FlatLogin(v, c.identityId, false), token)
    ensures WebDavTwin(v, h, w, k, token)
  {
    if IsSort(v, h.webdavConfigId, WebDavS) {
      hide SectionSaved, FlatLogin, Kept, LoginTwin, TokenTwin, LoginSaved;
      SavedOther(w, k.webdavConfigId, WebDavS, WebDavSection(f.webdav).value);
      var i, j := v[h.webdavConfigId.value].webdav.identityId, w[k.webdavConfigId.value].webdav.identityId;
      if token { FlatTokenTwin(v, i, w, j); } else { FlatTwin(v, i, w, j, false); }
    }
  }

  lemma CopyFormFields(v: Vault, id: Id, title: string, groupId: Option<Id>, token: bool, ok: bool)
    requires id in v && v[id].HostP?
    ensures
      var f, h := CopyForm(v, id, title, groupId, token, ok), v[id].host;
      && f.id.None? && f.groupId == groupId && f.tagIds == h.tagIds && f.notes == h.notes && f.extras("") == h.extras
      && FormName(f) == Title(title, h.address) && f.address == h.address
  {
    hide Trim;
  }

  /** The sections of the form that copies a host. */
  lemma CopyFormSections(v: Vault, id: Id, title: string, groupId: Option<Id>, token: bool, ok: bool)
    requires id in v && v[id].HostP?
    ensures
      var f, h := CopyForm(v, id, title, groupId, token, ok), v[id].host;
      && (IsSsh(v, h.sshConfigId) ==>
            f.ssh.Some? && f.ssh.value.login == FlatLogin(v, SshAt(v, h.sshConfigId).identityId, true))
      && (IsSort(v, h.telnetConfigId, TelnetS) ==>
            && f.telnet.Some? && f.telnet.value.port == v[h.telnetConfigId.value].telnet.port
            && f.telnet.value.settings("") == v[h.telnetConfigId.value].telnet.extras
            && f.telnet.value.login == FlatLogin(v, v[h.telnetConfigId.value].telnet.identityId, false))
      && (IsSort(v, h.webdavConfigId, WebDavS) ==>
            var c := v[h.webdavConfigId.value].webdav;
            && f.webdav.Some? && f.webdav.value.section == c.extras
            && f.webdav.value.login == TokenLogin(FlatLogin(v, c.identityId, false), token))
  {
    hide FlatLogin;
  }

  lemma SectionsAreTwins(v: Vault, w: Vault, id: Id, o: Id, title: string, groupId: Option<Id>, token: bool, ok: bool)
    requires id in v && v[id].HostP? && Kept(v, w)
    requires HostFromForm(v, w, o, CopyForm(v, id, title, groupId, token, ok))
    requires var raw := RawSsh(v, w, id, o);
      Kept(v, raw) && forall x :: x in w && !w[x].SshConfigP? ==> x in raw && raw[x] == w[x]
    ensures SectionTwins(v, v[id].host, RawSsh(v, w, id, o), w[o].host, token)
  {
    var f, raw, h, k := CopyForm(v, id, title, groupId, token, ok), RawSsh(v, w, id, o), v[id].host, w[o].host;
    CopyFormSections(v, id, title, groupId, token, ok);
    hide CopyForm, RawSsh, FlatLogin, SectionSaved, SshTwin, TelnetTwin, WebDavTwin, Kept, NewSsh;
    SshIsTwin(v, w, id, o, f);
    if f.telnet.Some? { OtherStays(w, raw, k.telnetConfigId, TelnetS, f.telnet.value); }
    if f.webdav.Some? { OtherStays(w, raw, k.webdavConfigId, WebDavS, WebDavSection(f.webdav).value); }
    TelnetIsTwin(v, h, raw, k, f);
    WebDavIsTwin(v, h, raw, k, f, token);
  }

  lemma OtherStays(w: Vault, raw: Vault, ref: Option<Id>, sort: Sort, f: SectionForm)
    requires SectionSaved(w, ref, sort, f) && sort in {TelnetS, WebDavS}
    requires forall x :: x in w && !w[x].SshConfigP? ==> x in raw && raw[x] == w[x]
    ensures SectionSaved(raw, ref, sort, f)
  {
    SavedOther(w, ref, sort, f);
    var i := IdentityRef(w[ref.value]);
    hide LoginSaved, Configured;
    SavedIdentity(w, i, f.login);
    LoginStaysPut(w, raw, i, f.login);
  }

  lemma SavedIdentity(w: Vault, i: Option<Id>, c: Login)
    requires LoginSaved(w, i, c)
    ensures i.Some? ==> i.value in w && w[i.value].IdentityP?
  {
    hide Trim;
  }

  /** A copied host is one new node with the fields of the original, its
      settings, and logins that read alike. */
  lemma CopyHostAdds(
    v: Vault, next: Id, id: Id, title: Option<string>, groupId: Option<Id>, token: bool, ok: bool, certKey: CertKeys)
    requires HS.IdsBelow(v, next) && CopyHost(v, next, id, title, groupId, token, ok, certKey).Ok?
    ensures
      var (w, o, next2) := CopyHost(v, next, id, title, groupId, token, ok, certKey).value;
      && id in v && v[id].HostP? && AddsNode(v, next, w, o, next2) && w[o].HostP?
      && HostTwin(v, v[id].host, w, w[o].host, if title.Some? then title.value else v[id].host.name, groupId, token)
  {
    var name := if title.Some? then title.value else v[id].host.name;
    var f := CopyForm(v, id, name, groupId, token, ok);
    CopyFormFields(v, id, name, groupId, token, ok);
    CopyFormSections(v, id, name, groupId, token, ok);
    hide CopyForm, SaveHost, FormName, AddsNode, SectionTwins, RawSsh, Title, Trim, NewSsh, HS.IdsBelow, SectionSaved,
         FlatLogin;
    NewHostAdds(v, next, f, certKey);
    var (w, o, next2) := SaveHost(v, next, f, certKey).value;
    AddsIsThere(v, next, w, o, next2);
    RawSshAdds(v, next, w, o, next2, id);
    AddsIsThere(v, next, RawSsh(v, w, id, o), o, next2);
    SectionsAreTwins(v, w, id, o, name, groupId, token, ok);
  }

  lemma AddsIsThere(v: Vault, next: Id, w: Vault, o: Id, next2: Id)
    requires AddsNode(v, next, w, o, next2)
    ensures o in w && Kept(v, w)
  {
  }

  // ----- copies of trees -----

  /** Where the copy of something that sits in `ref` sits. */
  function TwinRef(c: map<Id, Id>, ref: Option<Id>): Option<Id> {
    if ref.Some? && ref.value in c then Some(c[ref.value]) else None
  }

  /** The SSH defaults of `g`, cleaned as the form cleans them, are those of
      `k`, and the login reads alike. */
  ghost predicate DefaultsTwin(v: Vault, ref: Option<Id>, w: Vault, copy: Option<Id>, clean: string -> string) {
    && (copy.Some? ==> IsSsh(w, copy))
    && (ref.None? || IsSsh(v, ref) ==>
          var from, to := SshAt(v, ref), SshAt(w, copy);
          && to.port == NonZero(from.port) && to.extras == clean(from.extras)
          && LoginTwin(v, from.identityId, w, to.identityId, true))
  }

  ghost predicate GroupTwin(
    v: Vault, g: Group, w: Vault, k: Group, title: string, parent: Option<Id>, clean: string -> string)
  {
    k.name == Trim(title) && k.parentId == parent && DefaultsTwin(v, g.sshConfigId, w, k.sshConfigId, clean)
  }

  /** `c[x]` is the copy of node `x`: the top group under `parent` and with its
      new title, everything else in the copy of what the original sits in. */
  ghost predicate Twin(
    v: Vault, w: Vault, c: map<Id, Id>, id: Id, parent: Option<Id>, title: Option<string>, facts: Facts, x: Id)
    requires x in c
  {
    && x in v && c[x] in w && c[x] !in v
    && match v[x]
       case GroupP(g) =>
         && w[c[x]].GroupP?
         && if x == id then
              GroupTwin(v, g, w, w[c[x]].group, if title.Some? then title.value else g.name, parent, facts.clean)
            else
              && TwinRef(c, g.parentId).Some?
              && GroupTwin(v, g, w, w[c[x]].group, g.name, TwinRef(c, g.parentId), facts.clean)
       case HostP(h) =>
         && w[c[x]].HostP? && TwinRef(c, h.groupId).Some?
         && HostTwin(v, h, w, w[c[x]].host, h.name, TwinRef(c, h.groupId), facts.tokenMode(x))
       case _ => false
  }

  ghost predicate Injective(c: map<Id, Id>) { forall x, y :: x in c && y in c && c[x] == c[y] ==> x == y }

  ghost predicate AllTwins(
    v: Vault, w: Vault, c: map<Id, Id>, id: Id, parent: Option<Id>, title: Option<string>, facts: Facts)
  {
    forall x :: x in c ==> Twin(v, w, c, id, parent, title, facts, x)
  }

  /** From `v` to `w` nothing changed but for copies, one for each node in `c`. */
  ghost predicate Copies(
    v: Vault, w: Vault, c: map<Id, Id>, id: Id, parent: Option<Id>, title: Option<string>, facts: Facts)
  {
    Kept(v, w) && NewNodes(v, w, c.Values) && id in c && Injective(c) && AllTwins(v, w, c, id, parent, title, facts)
  }

  lemma FirstCopy(v: Vault, next: Id, id: Id, parent: Option<Id>, title: Option<string>, facts: Facts,
      certKey: CertKeys)
    requires HS.IdsBelow(v, next) && id in v && v[id].GroupP?
    requires SaveGroupForm(v, next, GroupCopyForm(v, id, parent, title, facts), certKey).Ok?
    ensures
      var (w, n, next2) := SaveGroupForm(v, next, GroupCopyForm(v, id, parent, title, facts), certKey).value;
      AddsNode(v, next, w, n, next2) && w[n].GroupP? && w[n].group.parentId == parent
      && Copies(v, w, map[id := n], id, parent, title, facts)
  {
    var f := GroupCopyForm(v, id, parent, title, facts);
    NewGroupAdds(v, next, f, certKey);
    var (w, n, next2) := SaveGroupForm(v, next, f, certKey).value;
    AddsIsThere(v, next, w, n, next2);
    hide SaveGroupForm, Trim, Defaults, ConfigOf, DefaultsSaved, DefaultsTwin;
    DefaultsAreTwin(v, v[id].group.sshConfigId, w, w[n].group.sshConfigId, facts.clean);
    assert (map[id := n]).Values == {n};
  }

  lemma DefaultsAreTwin(v: Vault, ref: Option<Id>, w: Vault, copy: Option<Id>, clean: string -> string)
    requires Kept(v, w) && DefaultsSaved(w, copy, Defaults(v, ref, clean))
    ensures DefaultsTwin(v, ref, w, copy, clean)
  {
    hide LoginSaved, LoginTwin, FlatLogin;
    assert Defaults(v, ref, clean).login == FlatLogin(v, SshAt(v, ref).identityId, true);
    FlatTwin(v, SshAt(v, ref).identityId, w, SshAt(w, copy).identityId, true);
  }

  /** Sections and defaults read the same where rows were only added. */
  lemma SectionTwinsStay(v: Vault, h: Host, w: Vault, k: Host, token: bool, w2: Vault)
    requires SectionTwins(v, h, w, k, token) && Kept(w, w2)
    ensures SectionTwins(v, h, w2, k, token)
  {
    hide LoginTwin, TokenTwin;
    if IsSsh(v, h.sshConfigId) {
      LoginTwinStays(v, SshAt(v, h.sshConfigId).identityId, w, SshAt(w, k.sshConfigId).identityId, true, w2);
    }
    if IsSort(v, h.telnetConfigId, TelnetS) {
      LoginTwinStays(v, v[h.telnetConfigId.value].telnet.identityId, w, w[k.telnetConfigId.value].telnet.identityId,
        false, w2);
    }
    if IsSort(v, h.webdavConfigId, WebDavS) {
      var i, j := v[h.webdavConfigId.value].webdav.identityId, w[k.webdavConfigId.value].webdav.identityId;
      if token { TokenTwinStays(v, i, w, j, w2); } else { LoginTwinStays(v, i, w, j, false, w2); }
    }
  }

  lemma LoginTwinStays(v: Vault, i: Option<Id>, w: Vault, j: Option<Id>, ssh: bool, w2: Vault)
    requires LoginTwin(v, i, w, j, ssh) && Kept(w, w2)
    ensures LoginTwin(v, i, w2, j, ssh)
  {
    TwinHasIdentity(v, i, w, j, ssh);
    hide LoginTwin;
    TwinsStay(v, i, w, j, ssh, w2);
  }

  lemma TokenTwinStays(v: Vault, i: Option<Id>, w: Vault, j: Option<Id>, w2: Vault)
    requires TokenTwin(v, i, w, j) && Kept(w, w2)
    ensures TokenTwin(v, i, w2, j)
  {
    TwinsStay(v, i, w, j, false, w2);
  }

  lemma DefaultsTwinStays(v: Vault, ref: Option<Id>, w: Vault, copy: Option<Id>, clean: string -> string, w2: Vault)
    requires DefaultsTwin(v, ref, w, copy, clean) && Kept(w, w2)
    ensures DefaultsTwin(v, ref, w2, copy, clean)
  {
    hide LoginTwin;
    if ref.None? || IsSsh(v, ref) {
      LoginTwinStays(v, SshAt(v, ref).identityId, w, SshAt(w, copy).identityId, true, w2);
    }
  }

  /** Twins stay twins when rows are added and more copies are made. */
  lemma TwinStays(
    v: Vault, w: Vault, c: map<Id, Id>, id: Id, parent: Option<Id>, title: Option<string>, facts: Facts, x: Id,
    w2: Vault, c2: map<Id, Id>)
    requires x in c && Twin(v, w, c, id, parent, title, facts, x) && Kept(w, w2)
    requires forall y :: y in c ==> y in c2 && c2[y] == c[y]
    requires forall y :: y in c ==> y in v && c[y] in w
    ensures Twin(v, w2, c2, id, parent, title, facts, x)
  {
    hide SectionTwins, DefaultsTwin, Title, Trim;
    assert w2[c[x]] == w[c[x]];
    match v[x]
    case GroupP(g) => DefaultsTwinStays(v, g.sshConfigId, w, w[c[x]].group.sshConfigId, facts.clean, w2);
    case HostP(h) => SectionTwinsStay(v, h, w, w[c[x]].host, facts.tokenMode(x), w2);
    case _ =>
  }

  lemma EachThere(v: Vault, w: Vault, c: map<Id, Id>, id: Id, parent: Option<Id>, title: Option<string>, facts: Facts)
    requires AllTwins(v, w, c, id, parent, title, facts)
    ensures forall y :: y in c ==> y in v && c[y] in w && c[y] !in v
  {
  }

  lemma OldTwinsStay(
    v: Vault, w: Vault, c: map<Id, Id>, id: Id, parent: Option<Id>, title: Option<string>, facts: Facts,
    w2: Vault, more: map<Id, Id>)
    requires AllTwins(v, w, c, id, parent, title, facts) && Closed(w) && Kept(w, w2) && c.Keys !! more.Keys
    ensures forall x :: x in c ==> Twin(v, w2, c + more, id, parent, title, facts, x)
  {
    EachThere(v, w, c, id, parent, title, facts);
    forall x | x in c
      ensures Twin(v, w2, c + more, id, parent, title, facts, x)
    {
      TwinStays(v, w, c, id, parent, title, facts, x, w2, c + more);
    }
  }

  lemma KeptTwice(v: Vault, w: Vault, w2: Vault)
    requires Kept(v, w) && Kept(w, w2)
    ensures Kept(v, w2)
  {
  }

  lemma NewNodesJoin(v: Vault, w: Vault, w2: Vault, c: map<Id, Id>, more: map<Id, Id>)
    requires Kept(w, w2) && NewNodes(v, w, c.Values) && NewNodes(w, w2, more.Values) && c.Keys !! more.Keys
    requires (forall x :: x in c ==> c[x] in w) && forall x :: x in more ==> more[x] !in w
    ensures NewNodes(v, w2, (c + more).Values)
  {
    ValuesJoin(c, more);
    forall x | x in w2 && x !in v
      ensures if x in (c + more).Values then IsNode(w2[x]) else IsOwned(w2[x])
    {
      assert x in w ==> x !in more.Values;
      assert x !in w ==> x !in c.Values;
    }
  }

  lemma ValuesJoin(c: map<Id, Id>, more: map<Id, Id>)
    requires c.Keys !! more.Keys
    ensures forall x :: x in (c + more).Values <==> x in c.Values || x in more.Values
  {
    forall x | x in c.Values
      ensures x in (c + more).Values
    {
      var y :| y in c && c[y] == x;
      assert (c + more)[y] == x;
    }
    forall x | x in more.Values
      ensures x in (c + more).Values
    {
      var y :| y in more && more[y] == x;
      assert (c + more)[y] == x;
    }
  }

  lemma InjectiveJoin(w: Vault, c: map<Id, Id>, more: map<Id, Id>)
    requires Injective(c) && Injective(more) && c.Keys !! more.Keys
    requires (forall x :: x in c ==> c[x] in w) && forall x :: x in more ==> more[x] !in w
    ensures Injective(c + more)
  {
  }

  /** More copies, made of rows added later, join those made so far. */
  lemma CopiesJoin(
    v: Vault, w: Vault, c: map<Id, Id>, id: Id, parent: Option<Id>, title: Option<string>, facts: Facts,
    w2: Vault, more: map<Id, Id>)
    requires Copies(v, w, c, id, parent, title, facts) && Closed(w) && Kept(w, w2) && NewNodes(w, w2, more.Values)
    requires c.Keys !! more.Keys && Injective(more) && (forall x :: x in more ==> more[x] !in w)
    requires forall x :: x in more ==> Twin(v, w2, c + more, id, parent, title, facts, x)
    ensures Copies(v, w2, c + more, id, parent, title, facts)
  {
    EachThere(v, w, c, id, parent, title, facts);
    hide Twin, Kept, NewNodes, Injective, Closed;
    OldTwinsStay(v, w, c, id, parent, title, facts, w2, more);
    KeptTwice(v, w, w2);
    NewNodesJoin(v, w, w2, c, more);
    InjectiveJoin(w, c, more);
  }

  /** What twins a row of `w` that was there in `v` twins it in `v`. */
  lemma SectionTwinsBack(v: Vault, h: Host, w: Vault, w2: Vault, k: Host, token: bool)
    requires Kept(v, w) && SectionTwins(w, h, w2, k, token)
    ensures SectionTwins(v, h, w2, k, token)
  {
    hide LoginTwin, TokenTwin;
    if IsSsh(v, h.sshConfigId) {
      TwinsBack(v, SshAt(v, h.sshConfigId).identityId, w, w2, SshAt(w2, k.sshConfigId).identityId, true);
    }
    if IsSort(v, h.telnetConfigId, TelnetS) {
      TwinsBack(v, v[h.telnetConfigId.value].telnet.identityId, w, w2,
        w2[k.telnetConfigId.value].telnet.identityId, false);
    }
    if IsSort(v, h.webdavConfigId, WebDavS) {
      TwinsBack(v, v[h.webdavConfigId.value].webdav.identityId, w, w2,
        w2[k.webdavConfigId.value].webdav.identityId, false);
    }
  }

  lemma HostTwinBack(
    v: Vault, h: Host, w: Vault, w2: Vault, k: Host, title: string, groupId: Option<Id>, token: bool)
    requires Kept(v, w) && HostTwin(w, h, w2, k, title, groupId, token)
    ensures HostTwin(v, h, w2, k, title, groupId, token)
  {
    hide SectionTwins, Title, Trim;
    SectionTwinsBack(v, h, w, w2, k, token);
  }

  lemma GroupTwinBack(
    v: Vault, g: Group, w: Vault, w2: Vault, k: Group, title: string, parent: Option<Id>, clean: string -> string)
    requires Kept(v, w) && GroupTwin(w, g, w2, k, title, parent, clean)
    ensures GroupTwin(v, g, w2, k, title, parent, clean)
  {
    hide LoginTwin, Trim;
    TwinsBack(v, SshAt(v, g.sshConfigId).identityId, w, w2, SshAt(w2, k.sshConfigId).identityId, true);
  }

  lemma AddsParts(w: Vault, next: Id, w2: Vault, o: Id, next2: Id)
    requires AddsNode(w, next, w2, o, next2) && HS.IdsBelow(w, next)
    ensures Kept(w, w2) && NewNodes(w, w2, {o}) && o in w2 && o !in w
  {
  }

  lemma HostTwinIs(
    v: Vault, w2: Vault, c: map<Id, Id>, id: Id, parent: Option<Id>, title: Option<string>, facts: Facts, h: Id)
    requires h in v && v[h].HostP? && h in c && c[h] in w2 && c[h] !in v && w2[c[h]].HostP?
    requires v[h].host.groupId == Some(id) && id in c
    requires HostTwin(v, v[h].host, w2, w2[c[h]].host, v[h].host.name, Some(c[id]), facts.tokenMode(h))
    ensures Twin(v, w2, c, id, parent, title, facts, h)
  {
  }

  /** One more host of the group is copied. */
  lemma HostCopied(
    v: Vault, w: Vault, c: map<Id, Id>, id: Id, parent: Option<Id>, title: Option<string>, facts: Facts,
    next: Id, w2: Vault, o: Id, next2: Id, h: Id)
    requires Closed(w) && Copies(v, w, c, id, parent, title, facts) && HS.IdsBelow(w, next)
    requires AddsNode(w, next, w2, o, next2) && h in v && v[h].HostP? && v[h].host.groupId == Some(id) && h !in c
    requires w2[o].HostP? && HostTwin(w, v[h].host, w2, w2[o].host, v[h].host.name, Some(c[id]), facts.tokenMode(h))
    ensures Copies(v, w2, c[h := o], id, parent, title, facts)
  {
    var more := map[h := o];
    hide *;
    CopiesParts(v, w, c, id, parent, title, facts);
    AddsParts(w, next, w2, o, next2);
    KeptKeeps(v, w, o);
    OneMore(c, h, o, w);
    HostTwinBack(v, v[h].host, w, w2, w2[o].host, v[h].host.name, Some(c[id]), facts.tokenMode(h));
    HostTwinIs(v, w2, c[h := o], id, parent, title, facts, h);
    CopiesJoin(v, w, c, id, parent, title, facts, w2, more);
  }

  lemma CopiesParts(v: Vault, w: Vault, c: map<Id, Id>, id: Id, parent: Option<Id>, title: Option<string>, facts: Facts)
    requires Copies(v, w, c, id, parent, title, facts)
    ensures Kept(v, w) && id in c
  {
  }

  lemma KeptKeeps(v: Vault, w: Vault, o: Id)
    requires Kept(v, w) && o !in w
    ensures o !in v
  {
  }

  lemma OneMore(c: map<Id, Id>, h: Id, o: Id, w: Vault)
    requires h !in c && o !in w
    ensures
      var more := map[h := o];
      && c + more == c[h := o] && more.Values == {o} && c.Keys !! more.Keys
      && Injective(more) && forall x :: x in more ==> x == h && more[x] !in w
  {
    var more := map[h := o];
    assert h in more && more[h] == o;
    assert o in more.Values && forall y :: y in more.Values ==> y == o;
  }

  /** A copy of sub-group `k`, made under the copy of `id`, in terms of the whole. */
  lemma SubTwin(
    v: Vault, w: Vault, c: map<Id, Id>, id: Id, parent: Option<Id>, title: Option<string>, facts: Facts, w2: Vault,
    more: map<Id, Id>, k: Id, x: Id)
    requires Kept(v, w) && id in c && c.Keys !! more.Keys && x in more
    requires k in v && v[k].GroupP? && v[k].group.parentId == Some(id) && (forall y :: y in more ==> y in v)
    requires Twin(w, w2, more, k, Some(c[id]), None, facts, x)
    ensures Twin(v, w2, c + more, id, parent, title, facts, x)
  {
    var all := c + more;
    assert x != id && all[x] == more[x] && all[id] == c[id] && w[x] == v[x];
    match v[x]
    case GroupP(g) =>
      assert TwinRef(more, g.parentId).Some? ==> TwinRef(all, g.parentId) == TwinRef(more, g.parentId);
      GroupTwinBack(v, g, w, w2, w2[more[x]].group, g.name, w2[more[x]].group.parentId, facts.clean);
    case HostP(h) =>
      assert TwinRef(all, h.groupId) == TwinRef(more, h.groupId);
      HostTwinBack(v, h, w, w2, w2[more[x]].host, h.name, TwinRef(more, h.groupId), facts.tokenMode(x));
    case _ =>
  }

  /** One more sub-group is copied whole. */
  lemma SubtreeCopied(
    v: Vault, w: Vault, c: map<Id, Id>, id: Id, parent: Option<Id>, title: Option<string>, facts: Facts, w2: Vault,
    more: map<Id, Id>, k: Id)
    requires Closed(w) && Copies(v, w, c, id, parent, title, facts) && Copies(w, w2, more, k, Some(c[id]), None, facts)
    requires c.Keys !! more.Keys && (forall y :: y in more ==> y in v)
    requires k in v && v[k].GroupP? && v[k].group.parentId == Some(id)
    ensures Copies(v, w2, c + more, id, parent, title, facts)
  {
    EachThere(w, w2, more, k, Some(c[id]), None, facts);
    forall x | x in more
      ensures Twin(v, w2, c + more, id, parent, title, facts, x)
    {
      assert Twin(w, w2, more, k, Some(c[id]), None, facts, x);
      SubTwin(v, w, c, id, parent, title, facts, w2, more, k, x);
    }
    CopiesJoin(v, w, c, id, parent, title, facts, w2, more);
  }

  // ----- the tree while copies are made -----

  /** Node `x` is group `id`, below it, or a host in one of those. */
  ghost predicate NodeUnder(v: Vault, id: Id, x: Id) {
    x in v && match v[x]
              case GroupP(_) => F.Under(GroupTree(v), id, x)
              case HostP(h) => h.groupId.Some? && F.Under(GroupTree(v), id, h.groupId.value)
              case _ => false
  }

  ghost function Inside(v: Vault, id: Id): iset<Id> { iset x: Id | NodeUnder(v, id, x) }

  /** Walks from old rows stay among old rows. */
  lemma {:induction false} OldUp(v: Vault, w: Vault, x: Id, m: nat)
    requires Closed(v) && Kept(v, w) && x in v
    ensures F.Up(GroupTree(w), x, m) == F.Up(GroupTree(v), x, m)
    ensures F.Up(GroupTree(v), x, m).Some? ==> F.Up(GroupTree(v), x, m).value in v
  {
    if m > 0 {
      OldUp(v, w, x, m - 1);
      var y := F.Up(GroupTree(v), x, m - 1);
      if y.Some? { assert RefsOk(v, v[y.value]); }
    }
  }

  lemma OldUnder(v: Vault, w: Vault, id: Id, x: Id)
    requires Closed(v) && Kept(v, w) && x in v
    ensures F.Under(GroupTree(w), id, x) <==> F.Under(GroupTree(v), id, x)
  {
    if n: nat :| F.Up(GroupTree(v), x, n) == Some(id) { OldUp(v, w, x, n); }
    if n: nat :| F.Up(GroupTree(w), x, n) == Some(id) { OldUp(v, w, x, n); }
  }

  /** A new group is the copy of one. */
  lemma CopiedFrom(
    v: Vault, w: Vault, c: map<Id, Id>, id: Id, parent: Option<Id>, title: Option<string>, facts: Facts, y: Id)
    returns (x: Id)
    requires Copies(v, w, c, id, parent, title, facts) && y in w && y !in v && IsNode(w[y])
    ensures x in c && c[x] == y && Twin(v, w, c, id, parent, title, facts, x)
  {
    x :| x in c && c[x] == y;
  }

  lemma TwinOfGroup(
    v: Vault, w: Vault, c: map<Id, Id>, id: Id, parent: Option<Id>, title: Option<string>, facts: Facts, x: Id)
    requires x in c && Twin(v, w, c, id, parent, title, facts, x) && v[x].GroupP?
    ensures c[x] in w && c[x] !in v && w[c[x]].GroupP?
    ensures if x == id then w[c[x]].group.parentId == parent
            else v[x].group.parentId.Some? && v[x].group.parentId.value in c &&
                 w[c[x]].group.parentId == Some(c[v[x].group.parentId.value])
  {
  }

  lemma TwinSort(
    v: Vault, w: Vault, c: map<Id, Id>, id: Id, parent: Option<Id>, title: Option<string>, facts: Facts, x: Id)
    requires x in c && Twin(v, w, c, id, parent, title, facts, x)
    ensures x in v && c[x] in w && (w[c[x]].GroupP? <==> v[x].GroupP?)
  {
  }

  lemma TwinIn(
    v: Vault, w: Vault, c: map<Id, Id>, id: Id, parent: Option<Id>, title: Option<string>, facts: Facts, x: Id)
    requires Copies(v, w, c, id, parent, title, facts) && x in c
    ensures Twin(v, w, c, id, parent, title, facts, x)
  {
  }

  lemma ParentIsGroup(v: Vault, x: Id)
    requires Closed(v) && x in v && v[x].GroupP? && v[x].group.parentId.Some?
    ensures v[x].group.parentId.value in v && v[v[x].group.parentId.value].GroupP?
  {
    assert RefsOk(v, v[x]);
  }

  /** The parent of a new group is the parent of the copy, or new as well. */
  lemma ParentOfNew(
    v: Vault, w: Vault, c: map<Id, Id>, id: Id, parent: Option<Id>, title: Option<string>, facts: Facts, y: Id)
    requires Closed(v) && Copies(v, w, c, id, parent, title, facts) && y in w && y !in v && w[y].GroupP?
    ensures
      var z := F.ParentOf(GroupTree(w), y);
      z == parent || (z.Some? && z.value in w && z.value !in v && w[z.value].GroupP?)
  {
    var x := CopiedFrom(v, w, c, id, parent, title, facts, y);
    hide Twin, Copies, Closed;
    TwinSort(v, w, c, id, parent, title, facts, x);
    TwinOfGroup(v, w, c, id, parent, title, facts, x);
    if x != id {
      var up := v[x].group.parentId.value;
      ParentIsGroup(v, x);
      TwinIn(v, w, c, id, parent, title, facts, up);
      TwinOfGroup(v, w, c, id, parent, title, facts, up);
    }
  }

  lemma UpIsUnder(v: Vault, w: Vault, x: Id, m: nat, k: Id)
    requires Closed(v) && Kept(v, w) && x in v && F.Up(GroupTree(w), x, m) == Some(k)
    ensures F.Under(GroupTree(v), k, x)
  {
    OldUp(v, w, x, m);
  }

  lemma NotAtOnce(t: F.Tree, y: Id, m: nat, k: Id)
    requires F.Up(t, y, m) == Some(k) && y != k
    ensures m > 0
  {
  }

  /** Walking up from a new group leads to the parent of the copy before it
      leads to any old group. */
  lemma {:induction false} NewUp(
    v: Vault, w: Vault, c: map<Id, Id>, id: Id, parent: Option<Id>, title: Option<string>, facts: Facts,
    y: Id, m: nat, k: Id)
    requires Closed(v) && Copies(v, w, c, id, parent, title, facts) && y in w && y !in v && w[y].GroupP?
    requires k in v && F.Up(GroupTree(w), y, m) == Some(k) && (parent.Some? ==> parent.value in v)
    ensures parent.Some? && F.Under(GroupTree(v), k, parent.value)
    decreases m
  {
    hide *;
    CopiesParts(v, w, c, id, parent, title, facts);
    NotAtOnce(GroupTree(w), y, m, k);
    F.UpFirst(GroupTree(w), y, m);
    ParentOfNew(v, w, c, id, parent, title, facts, y);
    var z := F.ParentOf(GroupTree(w), y).value;
    if z in v {
      UpIsUnder(v, w, z, m - 1, k);
    } else {
      NewUp(v, w, c, id, parent, title, facts, z, m - 1, k);
    }
  }

  /** Nothing new is under an old group of the subtree being copied. */
  lemma NewIsNotUnder(
    v: Vault, w: Vault, c: map<Id, Id>, id: Id, parent: Option<Id>, title: Option<string>, facts: Facts, k: Id, y: Id)
    requires Closed(v) && Copies(v, w, c, id, parent, title, facts) && y in w && y !in v && w[y].GroupP?
    requires k in v && F.Under(GroupTree(v), id, k)
    requires parent.Some? ==> parent.value in v && !F.Under(GroupTree(v), id, parent.value)
    ensures !F.Under(GroupTree(w), k, y)
  {
    if m: nat :| F.Up(GroupTree(w), y, m) == Some(k) {
      NewUp(v, w, c, id, parent, title, facts, y, m, k);
      UnderTransitive(GroupTree(v), id, k, parent.value);
    }
  }

  /** So the subtree of such a group is what it was. */
  lemma SubtreeIsOld(
    v: Vault, w: Vault, c: map<Id, Id>, id: Id, parent: Option<Id>, title: Option<string>, facts: Facts, k: Id)
    requires Closed(v) && Copies(v, w, c, id, parent, title, facts) && k in v && F.Under(GroupTree(v), id, k)
    requires parent.Some? ==> parent.value in v && !F.Under(GroupTree(v), id, parent.value)
    ensures Inside(w, k) == Inside(v, k)
  {
    forall x: Id
      ensures NodeUnder(w, k, x) <==> NodeUnder(v, k, x)
    {
      if x in v {
        OldNodeUnder(v, w, k, x);
      } else if x in w {
        NewNodeUnder(v, w, c, id, parent, title, facts, k, x);
      }
    }
  }

  lemma OldNodeUnder(v: Vault, w: Vault, k: Id, x: Id)
    requires Closed(v) && Kept(v, w) && x in v
    ensures NodeUnder(w, k, x) <==> NodeUnder(v, k, x)
  {
    assert RefsOk(v, v[x]);
    OldUnder(v, w, k, x);
    if v[x].HostP? && v[x].host.groupId.Some? { OldUnder(v, w, k, v[x].host.groupId.value); }
  }

  lemma NewNodeUnder(
    v: Vault, w: Vault, c: map<Id, Id>, id: Id, parent: Option<Id>, title: Option<string>, facts: Facts, k: Id, y: Id)
    requires Closed(v) && Copies(v, w, c, id, parent, title, facts) && k in v && F.Under(GroupTree(v), id, k)
    requires parent.Some? ==> parent.value in v && !F.Under(GroupTree(v), id, parent.value)
    requires y in w && y !in v
    ensures !NodeUnder(w, k, y)
  {
    if w[y].GroupP? {
      NewIsNotUnder(v, w, c, id, parent, title, facts, k, y);
    } else if w[y].HostP? {
      var x := CopiedFrom(v, w, c, id, parent, title, facts, y);
      var g := v[x].host.groupId.value;
      assert RefsOk(v, v[x]);
      assert Twin(v, w, c, id, parent, title, facts, g);
      NewIsNotUnder(v, w, c, id, parent, title, facts, k, c[g]);
    }
  }

  /** The tree gains one leaf. */
  /** One new node makes the tree that one moved node makes, or no other tree. */
  lemma LeafIsMove(v: Vault, next: Id, w: Vault, o: Id, next2: Id)
    requires HS.IdsBelow(v, next) && AddsNode(v, next, w, o, next2)
    ensures o !in v && o in w
    ensures GroupTree(w) ==
      if w[o].GroupP? then F.Reparent(GroupTree(v), o, w[o].group.parentId) else GroupTree(v)
  {
  }

  lemma LeafKeepsForest(v: Vault, next: Id, w: Vault, o: Id, next2: Id)
    requires Closed(v) && HS.IdsBelow(v, next) && AddsNode(v, next, w, o, next2) && F.Acyclic(GroupTree(v))
    requires w[o].GroupP? && w[o].group.parentId.Some? ==> w[o].group.parentId.value in v
    ensures F.Acyclic(GroupTree(w))
  {
    hide AddsNode, HS.IdsBelow;
    LeafIsMove(v, next, w, o, next2);
    var t := GroupTree(v);
    if w[o].GroupP? {
      var parent := w[o].group.parentId;
      if parent.Some? && F.Reaches(t, parent.value, o) {
        var n: nat :| n > 0 && F.Up(t, parent.value, n) == Some(o);
        OldUp(v, v, parent.value, n);
      }
      F.ReparentIsAcyclicExactly(t, o, parent);
    }
  }

  // ----- which nodes are copied -----

  /** The hosts directly in a group. */
  ghost predicate HostIn(v: Vault, id: Id, x: Id) { x in v && v[x].HostP? && v[x].host.groupId == Some(id) }

  ghost predicate InsideSome(v: Vault, kids: seq<Id>, x: Id) { exists k: nat :: InsideKid(v, kids, k, x) }

  ghost predicate InsideKid(v: Vault, kids: seq<Id>, k: nat, x: Id) { k < |kids| && NodeUnder(v, kids[k], x) }

  /** What is copied after some of the sub-groups: the group, its hosts, and all of those. */
  ghost predicate CopiedSo(v: Vault, c: map<Id, Id>, id: Id, kids: seq<Id>) {
    forall x: Id :: x in c <==> x == id || HostIn(v, id, x) || InsideSome(v, kids, x)
  }

  lemma GroupUnder(v: Vault, id: Id, kids: seq<Id>, x: Id)
    requires id in v && v[id].GroupP? && AreKids(v, id, kids)
    ensures F.Under(GroupTree(v), id, x) <==> x == id || BelowSome(v, kids, x)
  {
    BelowIsAllKids(v, id, kids);
    assert x in Below(v, id) <==> x in BelowAny(v, kids) + iset{id};
  }

  /** After all of them it is the whole subtree. */
  lemma CopiedAll(v: Vault, c: map<Id, Id>, id: Id, kids: seq<Id>)
    requires id in v && v[id].GroupP? && AreKids(v, id, kids) && CopiedSo(v, c, id, kids)
    ensures forall x: Id :: x in c <==> x in Inside(v, id)
  {
    forall x: Id
      ensures x in c <==> NodeUnder(v, id, x)
    {
      NodeUnderKids(v, id, kids, x);
    }
  }

  lemma NodeUnderKids(v: Vault, id: Id, kids: seq<Id>, x: Id)
    requires id in v && v[id].GroupP? && AreKids(v, id, kids)
    ensures NodeUnder(v, id, x) <==> x == id || HostIn(v, id, x) || InsideSome(v, kids, x)
  {
    GroupUnder(v, id, kids, x);
    if x in v && v[x].GroupP? {
      if k: nat :| BelowKid(v, kids, k, x) { assert InsideKid(v, kids, k, x); }
      if k: nat :| InsideKid(v, kids, k, x) { assert BelowKid(v, kids, k, x); }
    } else if x in v && v[x].HostP? && v[x].host.groupId.Some? {
      var g := v[x].host.groupId.value;
      GroupUnder(v, id, kids, g);
      if k: nat :| BelowKid(v, kids, k, g) { assert InsideKid(v, kids, k, x); }
      if k: nat :| InsideKid(v, kids, k, x) { assert BelowKid(v, kids, k, g); }
    }
  }

  /** The next sub-group and what was copied before have nothing in common. */
  lemma KidIsApart(v: Vault, c: map<Id, Id>, id: Id, kids: seq<Id>, i: nat, x: Id)
    requires Closed(v) && F.Acyclic(GroupTree(v)) && id in v && v[id].GroupP? && AreKids(v, id, kids) && i < |kids|
    requires CopiedSo(v, c, id, kids[..i]) && NodeUnder(v, kids[i], x)
    ensures x !in c
  {
    var t, few := GroupTree(v), kids[..i];
    assert kids[i] in kids && F.ParentOf(t, kids[i]) == Some(id);
    ChildIsNotAbove(t, id, kids[i]);
    forall k: nat
      ensures !InsideKid(v, few, k, x)
    {
      if k < i {
        assert kids[k] in kids && F.ParentOf(t, kids[k]) == Some(id);
        var g := if v[x].GroupP? then x else v[x].host.groupId.value;
        ChildrenApart(t, id, kids[k], kids[i], g);
      }
    }
  }

  lemma OneMoreCopied(v: Vault, c: map<Id, Id>, id: Id, kids: seq<Id>, i: nat, more: map<Id, Id>)
    requires i < |kids| && CopiedSo(v, c, id, kids[..i])
    requires forall x: Id :: x in more <==> NodeUnder(v, kids[i], x)
    ensures CopiedSo(v, c + more, id, kids[..i + 1])
  {
    var few, all := kids[..i], kids[..i + 1];
    forall x: Id
      ensures InsideSome(v, all, x) <==> InsideSome(v, few, x) || NodeUnder(v, kids[i], x)
    {
      if k: nat :| InsideKid(v, all, k, x) { assert k < i ==> InsideKid(v, few, k, x); }
      if k: nat :| InsideKid(v, few, k, x) { assert InsideKid(v, all, k, x); }
      if NodeUnder(v, kids[i], x) { assert InsideKid(v, all, i, x); }
    }
  }

  // ----- the turns of the copy -----

  /** The rows are in order and their groups form a forest. */
  ghost predicate Fine(s: State) { Good(s) && F.Acyclic(GroupTree(s.rows)) }

  lemma FineParts(s: State)
    requires Fine(s)
    ensures Good(s) && F.Acyclic(GroupTree(s.rows)) && Closed(s.rows) && HS.IdsBelow(s.rows, s.next)
  {
  }

  lemma StepIsFine(s: State, op: Op, certKey: CertKeys, bound: Payload -> Option<Id>, t: State, o: Id)
    requires Fine(s) && Step(s, op, certKey, bound, t) && AddsNode(s.rows, s.next, t.rows, o, t.next)
    requires t.rows[o].GroupP? && t.rows[o].group.parentId.Some? ==> t.rows[o].group.parentId.value in s.rows
    ensures Fine(t)
  {
    OpKeepsGood(s, op, certKey, bound);
    LeafKeepsForest(s.rows, s.next, t.rows, o, t.next);
  }

  /** The group itself is copied first. */
  lemma GroupStart(
    s: State, id: Id, parent: Option<Id>, title: Option<string>, facts: Facts, certKey: CertKeys,
    bound: Payload -> Option<Id>)
    requires Fine(s) && id in s.rows && s.rows[id].GroupP?
    requires SaveGroupForm(s.rows, s.next, GroupCopyForm(s.rows, id, parent, title, facts), certKey).Ok?
    ensures
      var f := GroupCopyForm(s.rows, id, parent, title, facts);
      var (w, n, next2) := SaveGroupForm(s.rows, s.next, f, certKey).value;
      && Fine(State(w, next2)) && Step(s, SaveGroupFormOp(f), certKey, bound, State(w, next2))
      && Copies(s.rows, w, map[id := n], id, parent, title, facts)
    ensures parent.Some? ==> parent.value in s.rows
  {
    var f := GroupCopyForm(s.rows, id, parent, title, facts);
    assert f.parentId == parent;
    FineParts(s);
    FormStep(s, f, certKey, bound);
    hide *;
    FirstCopy(s.rows, s.next, id, parent, title, facts, certKey);
    var (w, n, next2) := SaveGroupForm(s.rows, s.next, f, certKey).value;
    StepIsFine(s, SaveGroupFormOp(f), certKey, bound, State(w, next2), n);
  }

  lemma FormStep(s: State, f: GroupForm, certKey: CertKeys, bound: Payload -> Option<Id>)
    requires SaveGroupForm(s.rows, s.next, f, certKey).Ok?
    ensures
      var (w, n, next2) := SaveGroupForm(s.rows, s.next, f, certKey).value;
      Step(s, SaveGroupFormOp(f), certKey, bound, State(w, next2))
    ensures f.parentId.Some? ==> f.parentId.value in s.rows
  {
  }

  lemma CopyStep(
    s: State, x: Id, n: Id, token: bool, ok: bool, certKey: CertKeys, bound: Payload -> Option<Id>)
    requires CopyHost(s.rows, s.next, x, None, Some(n), token, ok, certKey).Ok?
    ensures
      var (w, o, next2) := CopyHost(s.rows, s.next, x, None, Some(n), token, ok, certKey).value;
      Step(s, CopyHostOp(x, None, Some(n), token, ok), certKey, bound, State(w, next2))
  {
  }

  lemma HostStays(v: Vault, w: Vault, id: Id, x: Id)
    requires Kept(v, w) && HostIn(v, id, x)
    ensures x in v && v[x].HostP? && v[x].host.groupId == Some(id) && x in w && w[x] == v[x]
  {
  }

  /** Then each host in it. */
  lemma HostTurn(
    v: Vault, s: State, c: map<Id, Id>, id: Id, parent: Option<Id>, title: Option<string>, facts: Facts, x: Id,
    certKey: CertKeys, bound: Payload -> Option<Id>)
    requires Fine(s) && Copies(v, s.rows, c, id, parent, title, facts) && HostIn(v, id, x) && x !in c
    requires CopyHost(s.rows, s.next, x, None, Some(c[id]), facts.tokenMode(x), facts.sectionOk(x), certKey).Ok?
    ensures
      var token, ok := facts.tokenMode(x), facts.sectionOk(x);
      var (w, o, next2) := CopyHost(s.rows, s.next, x, None, Some(c[id]), token, ok, certKey).value;
      && Fine(State(w, next2)) && Copies(v, w, c[x := o], id, parent, title, facts)
      && Step(s, CopyHostOp(x, None, Some(c[id]), token, ok), certKey, bound, State(w, next2))
  {
    var token, ok := facts.tokenMode(x), facts.sectionOk(x);
    hide *;
    FineParts(s);
    CopiesParts(v, s.rows, c, id, parent, title, facts);
    HostStays(v, s.rows, id, x);
    CopyStep(s, x, c[id], token, ok, certKey, bound);
    CopyHostAdds(s.rows, s.next, x, None, Some(c[id]), token, ok, certKey);
    var (w, o, next2) := CopyHost(s.rows, s.next, x, None, Some(c[id]), token, ok, certKey).value;
    HostCopied(v, s.rows, c, id, parent, title, facts, s.next, w, o, next2, x);
    StepIsFine(s, CopyHostOp(x, None, Some(c[id]), token, ok), certKey, bound, State(w, next2), o);
  }

  /** Only the original's own sub-groups sit in it, whatever was copied. */
  lemma KidsAreOld(
    v: Vault, w: Vault, c: map<Id, Id>, id: Id, parent: Option<Id>, title: Option<string>, facts: Facts, kids: seq<Id>)
    requires Closed(v) && Copies(v, w, c, id, parent, title, facts) && id in v && AreKids(w, id, kids)
    requires parent.Some? ==> !F.Under(GroupTree(v), id, parent.value)
    ensures AreKids(v, id, kids)
  {
    F.RootIsUnder(GroupTree(v), id);
    forall y | y in w && y !in v && w[y].GroupP?
      ensures w[y].group.parentId != Some(id)
    {
      ParentOfNew(v, w, c, id, parent, title, facts, y);
    }
  }

  lemma KidIsThere(v: Vault, w: Vault, id: Id, kids: seq<Id>, i: nat)
    requires AreKids(v, id, kids) && i < |kids| && Kept(v, w)
    ensures
      var k := kids[i];
      && k in v && v[k].GroupP? && v[k].group.parentId == Some(id) && k in w && w[k] == v[k]
      && F.ParentOf(GroupTree(v), k) == Some(id)
  {
    assert kids[i] in kids;
  }

  lemma SubtreeFromInside(v: Vault, w: Vault, k: Id)
    requires Inside(w, k) == Inside(v, k) && Kept(v, w)
    ensures Subtree(w, k) == Subtree(v, k)
  {
    forall x
      ensures x in Subtree(w, k) <==> x in Subtree(v, k)
    {
      assert x in Inside(w, k) <==> x in Inside(v, k);
      assert x in Inside(v, k) ==> x in v;
    }
  }

  lemma ShrunkSelf(v: Vault)
    ensures Shrunk(v, v)
  {
  }

  /** What the recursive copy of the next sub-group needs. */
  lemma SubgroupTurn(
    v: Vault, s: State, c: map<Id, Id>, id: Id, parent: Option<Id>, title: Option<string>, facts: Facts,
    kids: seq<Id>, i: nat)
    requires Closed(v) && F.Acyclic(GroupTree(v)) && id in v && v[id].GroupP? && AreKids(v, id, kids) && i < |kids|
    requires Copies(v, s.rows, c, id, parent, title, facts)
    requires parent.Some? ==> parent.value in v && !F.Under(GroupTree(v), id, parent.value)
    ensures Inside(s.rows, kids[i]) == Inside(v, kids[i]) && Subtree(s.rows, kids[i]) < Subtree(v, id)
    ensures !F.Under(GroupTree(s.rows), kids[i], c[id])
  {
    var k := kids[i];
    var t := GroupTree(v);
    hide *;
    CopiesParts(v, s.rows, c, id, parent, title, facts);
    KidIsThere(v, s.rows, id, kids, i);
    F.RootIsUnder(t, id);
    F.ChildIsUnder(t, id, id, k);
    SubtreeIsOld(v, s.rows, c, id, parent, title, facts, k);
    SubtreeFromInside(v, s.rows, k);
    ShrunkSelf(v);
    SubtreeShrinks(v, v, id, k);
    TwinIn(v, s.rows, c, id, parent, title, facts, id);
    TwinOfGroup(v, s.rows, c, id, parent, title, facts, id);
    NewIsNotUnder(v, s.rows, c, id, parent, title, facts, k, c[id]);
  }

  lemma InsideIsThere(v: Vault, k: Id, x: Id)
    requires x in Inside(v, k)
    ensures NodeUnder(v, k, x) && x in v
  {
  }

  /** A sub-group's copy joins the rest. */
  lemma SubgroupDone(
    v: Vault, w: Vault, c: map<Id, Id>, id: Id, parent: Option<Id>, title: Option<string>, facts: Facts,
    kids: seq<Id>, i: nat,
    w2: Vault, more: map<Id, Id>)
    requires Closed(v) && Closed(w) && F.Acyclic(GroupTree(v)) && id in v && v[id].GroupP?
    requires AreKids(v, id, kids) && i < |kids|
    requires Copies(v, w, c, id, parent, title, facts) && CopiedSo(v, c, id, kids[..i])
    requires Copies(w, w2, more, kids[i], Some(c[id]), None, facts)
    requires forall x: Id :: x in more <==> x in Inside(v, kids[i])
    ensures Copies(v, w2, c + more, id, parent, title, facts) && CopiedSo(v, c + more, id, kids[..i + 1])
    ensures (c + more)[id] == c[id]
  {
    var k := kids[i];
    hide *;
    CopiesParts(v, w, c, id, parent, title, facts);
    KidIsThere(v, w, id, kids, i);
    forall x | x in more
      ensures x in v && x !in c
    {
      InsideIsThere(v, k, x);
      KidIsApart(v, c, id, kids, i, x);
    }
    forall x: Id
      ensures x in more <==> NodeUnder(v, k, x)
    {
      InsideIs(v, k, x);
    }
    SubtreeCopied(v, w, c, id, parent, title, facts, w2, more, k);
    OneMoreCopied(v, c, id, kids, i, more);
  }

  lemma InsideIs(v: Vault, k: Id, x: Id)
    ensures x in Inside(v, k) <==> NodeUnder(v, k, x)
  {
  }

  /** When only the group itself is copied, the hosts listed in it are the original's. */
  lemma HostsOfOriginal(v: Vault, w: Vault, n: Id, id: Id, parent: Option<Id>, title: Option<string>, facts: Facts)
    requires Copies(v, w, map[id := n], id, parent, title, facts) && id in v && v[id].GroupP?
    ensures forall x: Id :: HostIn(w, id, x) <==> HostIn(v, id, x)
    ensures !HostIn(v, id, id) && forall x: Id :: HostIn(v, id, x) ==> x in w
  {
    TwinIn(v, w, map[id := n], id, parent, title, facts, id);
    assert (map[id := n])[id] == n;
    forall x: Id
      ensures HostIn(w, id, x) <==> HostIn(v, id, x)
    {
      if x in w && x !in v && IsNode(w[x]) {
        var y := CopiedFrom(v, w, map[id := n], id, parent, title, facts, x);
        assert y == id;
      }
    }
  }

  lemma HostsOnly(v: Vault, c: map<Id, Id>, id: Id)
    requires forall x: Id :: x in c <==> x == id || HostIn(v, id, x)
    ensures CopiedSo(v, c, id, [])
  {
  }
}
