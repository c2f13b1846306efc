/** When the copy of a whole group succeeds: a node that cannot be copied stops it. */
module CopySuccess {
  import opened Wrappers
  import opened Schema
  import opened VaultGraph
  import opened BridgePlans
  import opened HostForms
  import opened GroupTrees
  import opened HostRuns
  import opened CopiedLogins
  import opened GroupCopies
  import opened Text
  import HS = HostSaves
  import F = Forest

  // ----- one login, one section, one row -----

  /** The keychain identity is there; or the certificate is there and was issued
      for the key, and the key is there. */
  predicate LoginOk(v: Vault, c: Login, certKey: CertKeys) {
    if c.identityId.Some? then InKeychain(v, c.identityId)
    else
      && LoginKey(v, c, certKey).Ok?
      && var key := LoginKey(v, c, certKey).value;
         key.Some? ==> key.value in v && v[key.value].SshKeyP?
  }

  predicate SectionOk(v: Vault, f: Option<SectionForm>, certKey: CertKeys) {
    f.Some? ==> LoginOk(v, f.value.login, certKey)
  }

  /** From `v` to `w` only nodes, configs and their logins were added. */
  ghost predicate Extends(v: Vault, w: Vault) {
    Kept(v, w) && forall x :: x in w && x !in v ==> IsOwned(w[x]) || IsNode(w[x])
  }

  lemma LoginOkStays(v: Vault, w: Vault, c: Login, certKey: CertKeys)
    requires Extends(v, w)
    ensures LoginOk(v, c, certKey) <==> LoginOk(w, c, certKey)
  {
  }

  lemma SectionOkStays(v: Vault, w: Vault, f: Option<SectionForm>, certKey: CertKeys)
    requires Extends(v, w)
    ensures SectionOk(v, f, certKey) <==> SectionOk(w, f, certKey)
  {
    if f.Some? { LoginOkStays(v, w, f.value.login, certKey); }
  }

  lemma LoginSavesExactly(v: Vault, next: Id, c: Login, name: string, certKey: CertKeys)
    requires c.others(None).Some?
    ensures SaveLogin(v, next, None, c, name, certKey).Ok? <==> LoginOk(v, c, certKey)
  {
    hide Trim, LoginKey;
  }

  ghost predicate OthersFine(f: Option<SectionForm>) { f.Some? ==> f.value.login.others(None).Some? }

  lemma SectionSavesExactly(v: Vault, next: Id, sort: Sort, f: Option<SectionForm>, name: string, certKey: CertKeys)
    requires OthersFine(f)
    ensures SaveSlot(v, next, sort, None, None, f, name, certKey).Ok? <==> SectionOk(v, f, certKey)
  {
    hide SaveLogin, LoginOk;
    if f.Some? { LoginSavesExactly(v, next, f.value.login, name, certKey); }
  }

  /** A section's edit adds what later sections do not look at. */
  lemma SectionExtends(v: Vault, now: Vault, next: Id, sort: Sort, f: Option<SectionForm>, name: string,
      certKey: CertKeys)
    requires Extends(v, now) && HS.IdsBelow(now, next) && SaveSlot(now, next, sort, None, None, f, name, certKey).Ok?
    ensures
      var e := SaveSlot(now, next, sort, None, None, f, name, certKey).value.0;
      Extends(v, Apply(now, e)) && HS.IdsBelow(Apply(now, e), e.next)
  {
    NewSection(now, next, sort, f, name, certKey);
    hide SaveSlot;
    ConfigsAdd(now, SaveSlot(now, next, sort, None, None, f, name, certKey).value.0, next);
  }

  // ----- hosts -----

  ghost predicate FormFine(f: HostForm) {
    && f.id.None? && (f.ssh.Some? || f.telnet.Some? || f.webdav.Some?)
    && OthersFine(f.ssh) && OthersFine(f.telnet) && OthersFine(WebDavSection(f.webdav))
    && (f.webdav.Some? ==> f.webdav.value.modeKnown && f.webdav.value.fingerprintOk)
  }

  predicate SectionsOk(v: Vault, f: HostForm, certKey: CertKeys) {
    && SectionOk(v, f.ssh, certKey) && SectionOk(v, f.telnet, certKey)
    && SectionOk(v, WebDavSection(f.webdav), certKey)
  }

  /** A host can be copied: it has an address, a WebDAV section passes its
      check, and what its logins name is there. */
  predicate HostCopies(v: Vault, x: Id, token: bool, ok: bool, certKey: CertKeys)
    requires x in v && v[x].HostP?
  {
    var f := CopyForm(v, x, v[x].host.name, None, token, ok);
    Trim(v[x].host.address) != "" && (f.webdav.Some? ==> ok) && SectionsOk(v, f, certKey)
  }

  /** What a new host's form passes before its sections are looked at. */
  predicate FormPasses(v: Vault, f: HostForm) { CheckHostForm(v, f).None? }

  lemma NewHostSlots(v: Vault, now: Vault, next: Id, sort: Sort, f: Option<SectionForm>, name: string,
      certKey: CertKeys)
    ensures SaveHostSlot(v, now, next, None, sort, f, name, certKey) ==
              SaveSlot(now, next, sort, None, None, f, name, certKey)
  {
  }

  lemma NewHostSavesExactly(v: Vault, next: Id, f: HostForm, certKey: CertKeys)
    requires HS.IdsBelow(v, next) && FormFine(f)
    ensures SaveHost(v, next, f, certKey).Ok? <==> FormPasses(v, f) && SectionsOk(v, f, certKey)
  {
    var name := FormName(f);
    assert ExistingHost(v, f.id) == None && WithoutSerial(v, None) == v && Extends(v, v);
    hide SaveSlot, Apply, CheckHostForm, SectionOk, OthersFine, Extends, SavedHost, PutOwner, FormName, WebDavSection,
         SaveHostSlot, HS.IdsBelow;
    var r1 := SaveSlot(v, next, SshS, None, None, f.ssh, name, certKey);
    NewHostSlots(v, v, next, SshS, f.ssh, name, certKey);
    SectionSavesExactly(v, next, SshS, f.ssh, name, certKey);
    if r1.Ok? {
      SectionExtends(v, v, next, SshS, f.ssh, name, certKey);
      var v2, n2 := Apply(v, r1.value.0), r1.value.0.next;
      var r2 := SaveSlot(v2, n2, TelnetS, None, None, f.telnet, name, certKey);
      NewHostSlots(v, v2, n2, TelnetS, f.telnet, name, certKey);
      SectionSavesExactly(v2, n2, TelnetS, f.telnet, name, certKey);
      SectionOkStays(v, v2, f.telnet, certKey);
      if r2.Ok? {
        SectionExtends(v, v2, n2, TelnetS, f.telnet, name, certKey);
        var v3, n3 := Apply(v2, r2.value.0), r2.value.0.next;
        NewHostSlots(v, v3, n3, WebDavS, WebDavSection(f.webdav), name, certKey);
        SectionSavesExactly(v3, n3, WebDavS, WebDavSection(f.webdav), name, certKey);
        SectionOkStays(v, v3, WebDavSection(f.webdav), certKey);
      }
    }
  }

  lemma CopyFormFine(v: Vault, id: Id, name: string, groupId: Option<Id>, token: bool, ok: bool)
    requires id in v && v[id].HostP?
    ensures FormFine(CopyForm(v, id, name, groupId, token, ok))
  {
  }

  lemma CopyFormGroup(v: Vault, id: Id, name: string, group: Id, token: bool, ok: bool)
    requires id in v && v[id].HostP?
    ensures
      var f, g := CopyForm(v, id, name, Some(group), token, ok), CopyForm(v, id, name, None, token, ok);
      && f.ssh == g.ssh && f.telnet == g.telnet && f.webdav == g.webdav && f.webdavOk == ok
      && f.groupId == Some(group) && f.address == v[id].host.address
  {
  }

  /** A host is copied into a group exactly when it can be. */
  lemma HostCopiesExactly(v: Vault, next: Id, x: Id, group: Id, token: bool, ok: bool, certKey: CertKeys)
    requires HS.IdsBelow(v, next) && x in v && v[x].HostP? && group in v && v[group].GroupP?
    ensures CopyHost(v, next, x, None, Some(group), token, ok, certKey).Ok? <==> HostCopies(v, x, token, ok, certKey)
  {
    var f := CopyForm(v, x, v[x].host.name, Some(group), token, ok);
    CopyFormFine(v, x, v[x].host.name, Some(group), token, ok);
    CopyFormGroup(v, x, v[x].host.name, group, token, ok);
    NewHostSavesExactly(v, next, f, certKey);
    hide SaveHost, CopyForm, RawSsh, SectionOk, Trim;
  }

  // ----- reading alike -----

  /** Two logins that refer to the same rows. */
  predicate SameRefs(c: Login, d: Login) {
    c.identityId == d.identityId && c.keyId == d.keyId && c.certificate == d.certificate
  }

  ghost predicate SectionsAlike(f: Option<SectionForm>, g: Option<SectionForm>) {
    (f.Some? <==> g.Some?) && (f.Some? && g.Some? ==> SameRefs(f.value.login, g.value.login))
  }

  lemma AlikeOk(v: Vault, f: Option<SectionForm>, g: Option<SectionForm>, certKey: CertKeys)
    requires SectionsAlike(f, g)
    ensures SectionOk(v, f, certKey) <==> SectionOk(v, g, certKey)
  {
  }

  lemma SectionReadsAlike(v: Vault, w: Vault, ref: Option<Id>, sort: Sort, token: bool)
    requires Kept(v, w) && Closed(v) && Points(v, ref, sort) && sort in {SshS, TelnetS, WebDavS}
    ensures SectionsAlike(SectionCopy(v, ref, sort), SectionCopy(w, ref, sort))
    ensures SectionsAlike(WebDavSection(WebDavCopy(v, ref, token)), WebDavSection(WebDavCopy(w, ref, token)))
    ensures sort != WebDavS ==> (WebDavCopy(v, ref, token).Some? <==> WebDavCopy(w, ref, token).Some?)
    ensures WebDavCopy(v, ref, token).Some? <==> WebDavCopy(w, ref, token).Some?
  {
    if ref.Some? { assert RefsOk(v, v[ref.value]); }
  }

  lemma FormReadsAlike(v: Vault, w: Vault, x: Id, token: bool, ok: bool)
    requires Kept(v, w) && Closed(v) && x in v && v[x].HostP?
    ensures
      var f := CopyForm(v, x, v[x].host.name, None, token, ok);
      var g := CopyForm(w, x, v[x].host.name, None, token, ok);
      && SectionsAlike(f.ssh, g.ssh) && SectionsAlike(f.telnet, g.telnet)
      && SectionsAlike(WebDavSection(f.webdav), WebDavSection(g.webdav)) && (f.webdav.Some? <==> g.webdav.Some?)
  {
    var h := v[x].host;
    assert RefsOk(v, v[x]);
    SectionReadsAlike(v, w, h.sshConfigId, SshS, token);
    SectionReadsAlike(v, w, h.telnetConfigId, TelnetS, token);
    SectionReadsAlike(v, w, h.webdavConfigId, WebDavS, token);
    hide SectionCopy, WebDavCopy, Closed, Points;
  }

  lemma HostCopiesAlike(v: Vault, w: Vault, x: Id, token: bool, ok: bool, certKey: CertKeys)
    requires Extends(v, w) && Closed(v) && x in v && v[x].HostP?
    ensures x in w && w[x].HostP? && (HostCopies(v, x, token, ok, certKey) <==> HostCopies(w, x, token, ok, certKey))
  {
    assert w[x] == v[x];
    FormReadsAlike(v, w, x, token, ok);
    hide CopyForm, SectionOk, SectionsAlike, Extends, Closed, Trim;
    var f := CopyForm(v, x, v[x].host.name, None, token, ok);
    var g := CopyForm(w, x, v[x].host.name, None, token, ok);
    AlikeOk(v, f.ssh, g.ssh, certKey);
    AlikeOk(v, f.telnet, g.telnet, certKey);
    AlikeOk(v, WebDavSection(f.webdav), WebDavSection(g.webdav), certKey);
    SectionOkStays(v, w, g.ssh, certKey);
    SectionOkStays(v, w, g.telnet, certKey);
    SectionOkStays(v, w, WebDavSection(g.webdav), certKey);
  }

  // ----- groups -----

  /** A group can be copied under a title: the title is not blank, the chain and
      proxy it names are there, and what its login names is there. */
  predicate GroupCopiesAs(v: Vault, x: Id, title: string, facts: Facts, certKey: CertKeys)
    requires x in v && v[x].GroupP?
  {
    && Trim(title) != "" && facts.linksOk(x)
    && LoginOk(v, Defaults(v, v[x].group.sshConfigId, facts.clean).login, certKey)
  }

  lemma GroupCopiesExactly(v: Vault, next: Id, id: Id, parent: Option<Id>, title: Option<string>, facts: Facts,
      certKey: CertKeys)
    requires id in v && v[id].GroupP?
    ensures
      var name := if title.Some? then title.value else v[id].group.name;
      SaveGroupForm(v, next, GroupCopyForm(v, id, parent, title, facts), certKey).Ok? <==>
        Points(v, parent, GroupS) && GroupCopiesAs(v, id, name, facts, certKey)
  {
    var f := GroupCopyForm(v, id, parent, title, facts);
    assert f.ssh.login.others(None).Some?;
    assert CheckParent(v, None, parent).None? <==> Points(v, parent, GroupS);
    LoginSavesExactly(v, next, f.ssh.login, Trim(f.name), certKey);
    hide SaveLogin, LoginOk, CheckParent, Points, Configured, Defaults, Trim;
  }

  lemma GroupCopiesAlike(v: Vault, w: Vault, x: Id, title: string, facts: Facts, certKey: CertKeys)
    requires Extends(v, w) && Closed(v) && x in v && v[x].GroupP?
    ensures x in w && w[x].GroupP?
    ensures GroupCopiesAs(v, x, title, facts, certKey) <==> GroupCopiesAs(w, x, title, facts, certKey)
  {
    assert w[x] == v[x];
    var ref := v[x].group.sshConfigId;
    DefaultsAlike(v, w, x, facts.clean);
    var c, d := Defaults(v, ref, facts.clean).login, Defaults(w, ref, facts.clean).login;
    LoginOkStays(v, w, d, certKey);
    hide Defaults, Extends, Closed, Trim;
    assert LoginOk(v, c, certKey) <==> LoginOk(v, d, certKey);
  }

  lemma DefaultsAlike(v: Vault, w: Vault, x: Id, clean: string -> string)
    requires Kept(v, w) && Closed(v) && x in v && v[x].GroupP?
    ensures
      var ref := v[x].group.sshConfigId;
      SameRefs(Defaults(v, ref, clean).login, Defaults(w, ref, clean).login)
  {
    assert RefsOk(v, v[x]);
    var ref := v[x].group.sshConfigId;
    if ref.Some? { assert RefsOk(v, v[ref.value]); }
  }

  // ----- whole trees -----

  /** Node `x` of the tree below `id` can be copied; `id` itself gets `title`. */
  predicate NodeCopies(v: Vault, id: Id, title: Option<string>, facts: Facts, certKey: CertKeys, x: Id) {
    && x in v
    && match v[x]
       case GroupP(g) =>
         GroupCopiesAs(v, x, if x == id && title.Some? then title.value else g.name, facts, certKey)
       case HostP(_) => HostCopies(v, x, facts.tokenMode(x), facts.sectionOk(x), certKey)
       case _ => false
  }

  /** Some node of the tree cannot be copied. */
  ghost predicate Blocked(v: Vault, id: Id, title: Option<string>, facts: Facts, certKey: CertKeys) {
    exists x: Id :: NodeUnder(v, id, x) && !NodeCopies(v, id, title, facts, certKey, x)
  }

  /** The group and the parent it is copied under are there, and all of it can be copied. */
  ghost predicate CanCopy(
    v: Vault, id: Id, parent: Option<Id>, title: Option<string>, facts: Facts, certKey: CertKeys)
  {
    id in v && v[id].GroupP? && Points(v, parent, GroupS) && !Blocked(v, id, title, facts, certKey)
  }

  ghost predicate AllCopy(
    v: Vault, id: Id, title: Option<string>, facts: Facts, certKey: CertKeys, c: map<Id, Id>)
  {
    forall x :: x in c ==> NodeCopies(v, id, title, facts, certKey, x)
  }

  lemma NodeCopiesAlike(v: Vault, w: Vault, id: Id, title: Option<string>, facts: Facts, certKey: CertKeys, x: Id)
    requires Extends(v, w) && Closed(v) && x in v
    ensures NodeCopies(v, id, title, facts, certKey, x) <==> NodeCopies(w, id, title, facts, certKey, x)
  {
    hide GroupCopiesAs, HostCopies, Closed, Extends;
    assert x in w && w[x] == v[x] by { ExtendsKeeps(v, w, x); }
    match v[x]
    case GroupP(g) =>
      GroupCopiesAlike(v, w, x, if x == id && title.Some? then title.value else g.name, facts, certKey);
    case HostP(_) => HostCopiesAlike(v, w, x, facts.tokenMode(x), facts.sectionOk(x), certKey);
    case _ =>
  }

  lemma ExtendsKeeps(v: Vault, w: Vault, x: Id)
    requires Extends(v, w) && x in v
    ensures x in w && w[x] == v[x]
  {
  }

  lemma CopiesExtend(v: Vault, w: Vault, c: map<Id, Id>, id: Id, parent: Option<Id>, title: Option<string>,
      facts: Facts)
    requires Copies(v, w, c, id, parent, title, facts)
    ensures Extends(v, w)
  {
    hide AllTwins, Injective;
  }

  lemma NodeUnderIsThere(v: Vault, id: Id, x: Id)
    requires NodeUnder(v, id, x)
    ensures x in v && IsNode(v[x])
  {
  }

  /** A sub-group is blocked after some copies exactly when it was before, and
      then all of the tree is. */
  lemma SubgroupBlocks(v: Vault, w: Vault, id: Id, k: Id, title: Option<string>, facts: Facts, certKey: CertKeys)
    requires Extends(v, w) && Closed(v) && Inside(w, k) == Inside(v, k) && k != id
    requires forall x: Id :: x in Inside(v, k) ==> x in Inside(v, id) && x != id
    ensures Blocked(w, k, None, facts, certKey) ==> Blocked(v, id, title, facts, certKey)
    ensures !Blocked(w, k, None, facts, certKey) ==>
      forall x: Id :: x in Inside(v, k) ==> NodeCopies(v, id, title, facts, certKey, x)
  {
    hide NodeCopies, NodeUnder, Extends, Closed;
    forall x: Id | x in Inside(v, k)
      ensures NodeCopies(w, k, None, facts, certKey, x) <==> NodeCopies(v, id, title, facts, certKey, x)
    {
      InsideIs(v, k, x);
      NodeUnderIsThere(v, k, x);
      NodeCopiesAlike(v, w, k, None, facts, certKey, x);
      SameNode(v, id, k, title, facts, certKey, x);
    }
    if Blocked(w, k, None, facts, certKey) {
      var x: Id :| NodeUnder(w, k, x) && !NodeCopies(w, k, None, facts, certKey, x);
      InsideIs(w, k, x);
      InsideIs(v, id, x);
    } else {
      forall x: Id | x in Inside(v, k)
        ensures NodeCopies(v, id, title, facts, certKey, x)
      {
        InsideIs(w, k, x);
      }
    }
  }

  lemma SameNode(v: Vault, id: Id, k: Id, title: Option<string>, facts: Facts, certKey: CertKeys, x: Id)
    requires x != id
    ensures NodeCopies(v, k, None, facts, certKey, x) <==> NodeCopies(v, id, title, facts, certKey, x)
  {
    hide GroupCopiesAs, HostCopies;
  }

  /** The copy of everything inside was made, so nothing blocks it. */
  lemma AllCopyIsEnough(v: Vault, id: Id, title: Option<string>, facts: Facts, certKey: CertKeys, c: map<Id, Id>)
    requires AllCopy(v, id, title, facts, certKey, c) && forall x: Id :: x in c <==> x in Inside(v, id)
    ensures !Blocked(v, id, title, facts, certKey)
  {
    hide NodeCopies, NodeUnder;
    forall x: Id | NodeUnder(v, id, x)
      ensures NodeCopies(v, id, title, facts, certKey, x)
    {
      InsideIs(v, id, x);
    }
  }

  lemma OneBlocks(v: Vault, id: Id, title: Option<string>, facts: Facts, certKey: CertKeys, x: Id)
    requires NodeUnder(v, id, x) && !NodeCopies(v, id, title, facts, certKey, x)
    ensures Blocked(v, id, title, facts, certKey)
  {
  }

  // ----- while the copy is made -----

  /** Everything inside a sub-group is inside the group, and is not the group. */
  lemma KidInside(v: Vault, id: Id, kids: seq<Id>, i: nat)
    requires F.Acyclic(GroupTree(v)) && id in v && v[id].GroupP? && AreKids(v, id, kids) && i < |kids|
    ensures kids[i] != id && forall x: Id :: x in Inside(v, kids[i]) ==> x in Inside(v, id) && x != id
  {
    var k, t := kids[i], GroupTree(v);
    assert k in t && t[k] == Some(id);
    ChildIsNotAbove(t, id, k);
    hide NodeUnder, AreKids, GroupTree;
    forall x: Id | x in Inside(v, k)
      ensures x in Inside(v, id) && x != id
    {
      InsideIs(v, k, x);
      InsideIs(v, id, x);
      assert InsideKid(v, kids, i, x);
      NodeUnderKids(v, id, kids, x);
      if x == id { GroupIsUnder(v, k, id); }
    }
    F.RootIsUnder(t, k);
  }

  lemma GroupIsUnder(v: Vault, k: Id, id: Id)
    requires NodeUnder(v, k, id) && id in v && v[id].GroupP?
    ensures F.Under(GroupTree(v), k, id)
  {
  }

  lemma CanCopyIs(v: Vault, id: Id, parent: Option<Id>, title: Option<string>, facts: Facts, certKey: CertKeys)
    requires id in v && v[id].GroupP? && Points(v, parent, GroupS)
    ensures CanCopy(v, id, parent, title, facts, certKey) <==> !Blocked(v, id, title, facts, certKey)
  {
  }

  /** What the copy of a sub-group says about the whole tree. */
  lemma SubgroupSettles(
    v: Vault, s: State, c: map<Id, Id>, id: Id, parent: Option<Id>, title: Option<string>, facts: Facts,
    certKey: CertKeys, kids: seq<Id>, i: nat)
    requires Closed(v) && F.Acyclic(GroupTree(v)) && id in v && v[id].GroupP? && AreKids(v, id, kids) && i < |kids|
    requires Copies(v, s.rows, c, id, parent, title, facts) && Inside(s.rows, kids[i]) == Inside(v, kids[i])
    ensures !CanCopy(s.rows, kids[i], Some(c[id]), None, facts, certKey) ==> Blocked(v, id, title, facts, certKey)
    ensures CanCopy(s.rows, kids[i], Some(c[id]), None, facts, certKey) ==>
      forall x: Id :: x in Inside(v, kids[i]) ==> NodeCopies(v, id, title, facts, certKey, x)
  {
    hide *;
    CopiesExtend(v, s.rows, c, id, parent, title, facts);
    CopiesParts(v, s.rows, c, id, parent, title, facts);
    KidIsThere(v, s.rows, id, kids, i);
    KidInside(v, id, kids, i);
    TwinIn(v, s.rows, c, id, parent, title, facts, id);
    TwinOfGroup(v, s.rows, c, id, parent, title, facts, id);
    GroupPoints(s.rows, c[id]);
    CanCopyIs(s.rows, kids[i], Some(c[id]), None, facts, certKey);
    SubgroupBlocks(v, s.rows, id, kids[i], title, facts, certKey);
  }

  lemma GroupPoints(v: Vault, g: Id)
    requires g in v && v[g].GroupP?
    ensures Points(v, Some(g), GroupS)
  {
  }

  lemma MoreCopy(
    v: Vault, id: Id, title: Option<string>, facts: Facts, certKey: CertKeys, c: map<Id, Id>, more: map<Id, Id>)
    requires AllCopy(v, id, title, facts, certKey, c)
    requires forall x :: x in more ==> NodeCopies(v, id, title, facts, certKey, x)
    ensures AllCopy(v, id, title, facts, certKey, c + more)
  {
    hide NodeCopies;
  }

  lemma OneMoreCopies(
    v: Vault, id: Id, title: Option<string>, facts: Facts, certKey: CertKeys, c: map<Id, Id>, x: Id, o: Id)
    requires AllCopy(v, id, title, facts, certKey, c) && NodeCopies(v, id, title, facts, certKey, x)
    ensures AllCopy(v, id, title, facts, certKey, c[x := o])
  {
    hide NodeCopies;
  }

  /** The group's own row. */
  lemma TopCopies(s: State, id: Id, parent: Option<Id>, title: Option<string>, facts: Facts, certKey: CertKeys)
    requires id in s.rows && s.rows[id].GroupP?
    ensures SaveGroupForm(s.rows, s.next, GroupCopyForm(s.rows, id, parent, title, facts), certKey).Ok? <==>
      Points(s.rows, parent, GroupS) && NodeCopies(s.rows, id, title, facts, certKey, id)
  {
    GroupCopiesExactly(s.rows, s.next, id, parent, title, facts, certKey);
    hide GroupCopiesAs, SaveGroupForm, Points;
  }

  /** A group that cannot be copied itself, or not under that parent, cannot be copied. */
  lemma TopBlocks(v: Vault, id: Id, parent: Option<Id>, title: Option<string>, facts: Facts, certKey: CertKeys)
    requires id in v && v[id].GroupP?
    requires !(Points(v, parent, GroupS) && NodeCopies(v, id, title, facts, certKey, id))
    ensures !CanCopy(v, id, parent, title, facts, certKey)
  {
    hide NodeCopies;
    if !NodeCopies(v, id, title, facts, certKey, id) {
      F.RootIsUnder(GroupTree(v), id);
      OneBlocks(v, id, title, facts, certKey, id);
    }
  }

  /** One host of the group. */
  lemma HostCopiesOrBlocks(
    v: Vault, s: State, c: map<Id, Id>, id: Id, parent: Option<Id>, title: Option<string>, facts: Facts,
    certKey: CertKeys, x: Id)
    requires Closed(v) && Copies(v, s.rows, c, id, parent, title, facts) && HS.IdsBelow(s.rows, s.next)
    requires HostIn(v, id, x) && id in v && v[id].GroupP?
    ensures CopyHost(s.rows, s.next, x, None, Some(c[id]), facts.tokenMode(x), facts.sectionOk(x), certKey).Ok? <==>
      NodeCopies(v, id, title, facts, certKey, x)
    ensures !NodeCopies(v, id, title, facts, certKey, x) ==> Blocked(v, id, title, facts, certKey)
  {
    var w := s.rows;
    HostIsUnder(v, id, x);
    hide *;
    CopiesExtend(v, w, c, id, parent, title, facts);
    CopiesParts(v, w, c, id, parent, title, facts);
    HostStays(v, w, id, x);
    TwinIn(v, w, c, id, parent, title, facts, id);
    TwinOfGroup(v, w, c, id, parent, title, facts, id);
    HostCopiesExactly(w, s.next, x, c[id], facts.tokenMode(x), facts.sectionOk(x), certKey);
    NodeCopiesAlike(v, w, id, title, facts, certKey, x);
    HostNode(w, id, title, facts, certKey, x);
    if !NodeCopies(v, id, title, facts, certKey, x) { OneBlocks(v, id, title, facts, certKey, x); }
  }

  lemma HostNode(v: Vault, id: Id, title: Option<string>, facts: Facts, certKey: CertKeys, x: Id)
    requires x in v && v[x].HostP?
    ensures NodeCopies(v, id, title, facts, certKey, x) <==>
      HostCopies(v, x, facts.tokenMode(x), facts.sectionOk(x), certKey)
  {
    hide HostCopies, GroupCopiesAs;
  }

  lemma HostIsUnder(v: Vault, id: Id, x: Id)
    requires HostIn(v, id, x) && id in v && v[id].GroupP?
    ensures NodeUnder(v, id, x)
  {
    F.RootIsUnder(GroupTree(v), id);
  }

  lemma ParentPoints(s: State, id: Id)
    requires Fine(s) && id in s.rows && s.rows[id].GroupP?
    ensures Points(s.rows, s.rows[id].group.parentId, GroupS)
  {
    FineParts(s);
    hide Fine, Good;
    assert RefsOk(s.rows, s.rows[id]);
  }

  // ----- the loop over the sub-groups -----

  /** What is fixed while group `id` of `v` is copied: its sub-groups and a parent outside of it. */
  ghost predicate Setting(v: Vault, id: Id, parent: Option<Id>, kids: seq<Id>) {
    && Closed(v) && F.Acyclic(GroupTree(v)) && id in v && v[id].GroupP? && AreKids(v, id, kids)
    && (parent.Some? ==> parent.value in v && !F.Under(GroupTree(v), id, parent.value))
  }

  /** How far the copy of group `id` has come: the group, its hosts and the sub-groups `done`. */
  ghost predicate Progress(
    v: Vault, start: State, s: State, ops: seq<Op>, c: map<Id, Id>, id: Id, parent: Option<Id>,
    title: Option<string>, facts: Facts, certKey: CertKeys, bound: Payload -> Option<Id>, done: seq<Id>)
  {
    && Fine(s) && Ran(start, ops, certKey, bound) == Some(s)
    && Copies(v, s.rows, c, id, parent, title, facts) && id in c && CopiedSo(v, c, id, done)
    && AllCopy(v, id, title, facts, certKey, c)
  }

  lemma ProgressParts(
    v: Vault, start: State, s: State, ops: seq<Op>, c: map<Id, Id>, id: Id, parent: Option<Id>,
    title: Option<string>, facts: Facts, certKey: CertKeys, bound: Payload -> Option<Id>, done: seq<Id>)
    requires Progress(v, start, s, ops, c, id, parent, title, facts, certKey, bound, done)
    ensures Fine(s) && Ran(start, ops, certKey, bound) == Some(s)
    ensures Copies(v, s.rows, c, id, parent, title, facts) && id in c && CopiedSo(v, c, id, done)
    ensures AllCopy(v, id, title, facts, certKey, c)
  {
  }

  lemma ProgressIs(
    v: Vault, start: State, s: State, ops: seq<Op>, c: map<Id, Id>, id: Id, parent: Option<Id>,
    title: Option<string>, facts: Facts, certKey: CertKeys, bound: Payload -> Option<Id>, done: seq<Id>)
    requires Fine(s) && Ran(start, ops, certKey, bound) == Some(s)
    requires Copies(v, s.rows, c, id, parent, title, facts) && id in c && CopiedSo(v, c, id, done)
    requires AllCopy(v, id, title, facts, certKey, c)
    ensures Progress(v, start, s, ops, c, id, parent, title, facts, certKey, bound, done)
  {
  }

  lemma SettingParts(v: Vault, id: Id, parent: Option<Id>, kids: seq<Id>)
    requires Setting(v, id, parent, kids)
    ensures Closed(v) && F.Acyclic(GroupTree(v)) && id in v && v[id].GroupP? && AreKids(v, id, kids)
    ensures parent.Some? ==> parent.value in v && !F.Under(GroupTree(v), id, parent.value)
  {
  }

  /** Before the next sub-group is copied: it is whole, its copy goes under the
      copy of the group, and it settles what it can of the whole. */
  lemma SubgroupBegins(
    v: Vault, start: State, s: State, ops: seq<Op>, c: map<Id, Id>, id: Id, parent: Option<Id>,
    title: Option<string>, facts: Facts, certKey: CertKeys, bound: Payload -> Option<Id>, kids: seq<Id>, i: nat)
    requires Setting(v, id, parent, kids) && i < |kids|
    requires Progress(v, start, s, ops, c, id, parent, title, facts, certKey, bound, kids[..i])
    ensures Fine(s) && id in c && !F.Under(GroupTree(s.rows), kids[i], c[id])
    ensures Inside(s.rows, kids[i]) == Inside(v, kids[i]) && Subtree(s.rows, kids[i]) < Subtree(v, id)
    ensures !CanCopy(s.rows, kids[i], Some(c[id]), None, facts, certKey) ==> Blocked(v, id, title, facts, certKey)
  {
    hide *;
    SettingParts(v, id, parent, kids);
    ProgressParts(v, start, s, ops, c, id, parent, title, facts, certKey, bound, kids[..i]);
    SubgroupTurn(v, s, c, id, parent, title, facts, kids, i);
    SubgroupSettles(v, s, c, id, parent, title, facts, certKey, kids, i);
  }

  /** After it was copied. */
  lemma SubgroupEnds(
    v: Vault, start: State, s: State, ops: seq<Op>, c: map<Id, Id>, id: Id, parent: Option<Id>,
    title: Option<string>, facts: Facts, certKey: CertKeys, bound: Payload -> Option<Id>, kids: seq<Id>, i: nat,
    s2: State, subOps: seq<Op>, copies: map<Id, Id>)
    requires Setting(v, id, parent, kids) && i < |kids|
    requires Progress(v, start, s, ops, c, id, parent, title, facts, certKey, bound, kids[..i])
    requires Fine(s2) && Ran(s, subOps, certKey, bound) == Some(s2) && id in c
    requires Copies(s.rows, s2.rows, copies, kids[i], Some(c[id]), None, facts)
    requires (forall x: Id :: x in copies <==> x in Inside(v, kids[i])) && Inside(s.rows, kids[i]) == Inside(v, kids[i])
    requires CanCopy(s.rows, kids[i], Some(c[id]), None, facts, certKey)
    ensures Progress(v, start, s2, ops + subOps, c + copies, id, parent, title, facts, certKey, bound, kids[..i + 1])
    ensures (c + copies)[id] == c[id]
  {
    hide *;
    SettingParts(v, id, parent, kids);
    ProgressParts(v, start, s, ops, c, id, parent, title, facts, certKey, bound, kids[..i]);
    FineParts(s);
    SubgroupSettles(v, s, c, id, parent, title, facts, certKey, kids, i);
    SubgroupDone(v, s.rows, c, id, parent, title, facts, kids, i, s2.rows, copies);
    MoreCopy(v, id, title, facts, certKey, c, copies);
    RanThen(start, ops, s, subOps, certKey, bound);
    ProgressIs(v, start, s2, ops + subOps, c + copies, id, parent, title, facts, certKey, bound, kids[..i + 1]);
  }

  /** After all of them. */
  lemma CopyEnds(
    v: Vault, start: State, s: State, ops: seq<Op>, c: map<Id, Id>, id: Id, parent: Option<Id>,
    title: Option<string>, facts: Facts, certKey: CertKeys, bound: Payload -> Option<Id>, kids: seq<Id>)
    requires Setting(v, id, parent, kids)
    requires Progress(v, start, s, ops, c, id, parent, title, facts, certKey, bound, kids)
    ensures Fine(s) && Ran(start, ops, certKey, bound) == Some(s)
    ensures Copies(v, s.rows, c, id, parent, title, facts) && id in c
    ensures (forall x: Id :: x in c <==> x in Inside(v, id)) && !Blocked(v, id, title, facts, certKey)
  {
    hide *;
    SettingParts(v, id, parent, kids);
    ProgressParts(v, start, s, ops, c, id, parent, title, facts, certKey, bound, kids);
    CopiedAll(v, c, id, kids);
    AllCopyIsEnough(v, id, title, facts, certKey, c);
  }

  /** The loop begins with the group and its hosts copied. */
  lemma CopyBegins(
    v: Vault, start: State, m: State, ops: seq<Op>, s: State, more: seq<Op>, c: map<Id, Id>, id: Id,
    parent: Option<Id>, title: Option<string>, facts: Facts, certKey: CertKeys, bound: Payload -> Option<Id>)
    requires Ran(start, ops, certKey, bound) == Some(m) && Ran(m, more, certKey, bound) == Some(s) && Fine(s)
    requires Copies(v, s.rows, c, id, parent, title, facts) && id in c && CopiedSo(v, c, id, [])
    requires AllCopy(v, id, title, facts, certKey, c)
    ensures Progress(v, start, s, ops + more, c, id, parent, title, facts, certKey, bound, [])
  {
    hide *;
    RanThen(start, ops, m, more, certKey, bound);
    ProgressIs(v, start, s, ops + more, c, id, parent, title, facts, certKey, bound, []);
  }

  lemma SettingIs(v: Vault, id: Id, parent: Option<Id>, kids: seq<Id>)
    requires Closed(v) && F.Acyclic(GroupTree(v)) && id in v && v[id].GroupP? && AreKids(v, id, kids)
    requires parent.Some? ==> parent.value in v && !F.Under(GroupTree(v), id, parent.value)
    ensures Setting(v, id, parent, kids)
  {
  }
}
