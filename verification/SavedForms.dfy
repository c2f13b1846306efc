/** What a save in the client's editors leaves in the vault, said over the form
    and the stored rows. */
module SavedForms {
  import opened Wrappers
  import opened Schema
  import opened VaultGraph
  import opened BridgePlans
  import opened PlanSwaps
  import opened PlanAssembly
  import opened HostForms
  import opened HostTheorems
  import opened HostSaves
  import opened PlanRepeats
  import opened PlannedHosts
  import opened Text
  import CL = CopiedLogins
  import F = Forest

  // ----- the owner's row -----

  /** The host a form edits, if it edits one. */
  function Edited(v: Vault, id: Option<Id>): Option<Host> { if id.Some? then WasHost(v, id.value) else None }

  /** Row `o` is the form's host: a new one, or the one it edits. */
  predicate HostRow(v: Vault, w: Vault, o: Id, f: HostForm) {
    && o in w && w[o].HostP?
    && var h, was := w[o].host, Edited(v, f.id);
    && (if was.Some? then o == f.id.value else o !in v)
    && h.address == Trim(f.address) && h.name == (if Trim(f.name) == "" then Trim(f.address) else Trim(f.name))
    && h.groupId == f.groupId && h.tagIds == f.tagIds && h.notes == f.notes && h.serialConfigId == None
    && h.osName == (if was.Some? then was.value.osName else if f.osName == Some("") then None else f.osName)
    && h.externalId == (if was.Some? then was.value.externalId else None)
    && h.extras == f.extras(if was.Some? then was.value.extras else "")
  }

  /** Whatever the vault is like, a saved host has the form's address, name,
      group, tags and notes; the system it runs on is only taken from the form
      for a new host. */
  lemma SavedHostIsTheForm(v: Vault, next: Id, f: HostForm, certKey: CertKeys)
    requires IdsBelow(v, next) && SaveHost(v, next, f, certKey).Ok?
    ensures HostRow(v, SaveHost(v, next, f, certKey).value.0, SaveHost(v, next, f, certKey).value.1, f)
    ensures ExistingHost(v, f.id) == Edited(v, f.id)
    ensures Edited(v, f.id).None? ==> next <= SaveHost(v, next, f, certKey).value.1
  {
    hide *;
    var s := SaveHasSections(v, next, f, certKey);
    SectionsForward(v, next, f, certKey, s);
    var was := ExistingHost(v, f.id);
    var end := After(After(After(WithoutSerial(v, was), s[0]), s[1]), s[2]);
    OwnerIsPut(end, s[2].hi, if was.Some? then f.id else None, OwnerOf(v, f, s));
    OwnerRow(v, next, f, s, SaveHost(v, next, f, certKey).value.0, SaveHost(v, next, f, certKey).value.1);
  }

  lemma OwnerIsPut(v: Vault, next: Id, id: Option<Id>, p: Payload)
    ensures
      var r := PutOwner(v, next, id, p);
      r.1 in r.0 && r.0[r.1] == p && r.1 == (if id.Some? then id.value else next)
  {
  }

  lemma OwnerRow(v: Vault, next: Id, f: HostForm, s: seq<Swap>, w: Vault, o: Id)
    requires IdsBelow(v, next) && |s| == SLOTS && next <= s[2].hi && o in w && w[o] == OwnerOf(v, f, s)
    requires o == (if ExistingHost(v, f.id).Some? && f.id.Some? then f.id.value else s[2].hi)
    ensures HostRow(v, w, o, f) && ExistingHost(v, f.id) == Edited(v, f.id)
    ensures Edited(v, f.id).None? ==> next <= o
  {
    hide Trim;
  }

  lemma SlotForward(v: Vault, now: Vault, next: Id, was: Option<Host>, sort: Sort, f: Option<SectionForm>, name: string,
      certKey: CertKeys)
    requires SaveHostSlot(v, now, next, was, sort, f, name, certKey).Ok?
    ensures next <= SectionSwap(v, now, next, was, sort, f, name, certKey).hi
  {
    hide LoginKey, Trim, Configured;
  }

  lemma SectionsForward(v: Vault, next: Id, f: HostForm, certKey: CertKeys, s: seq<Swap>)
    requires Sections(v, next, f, certKey, s)
    ensures |s| == SLOTS && SLOTS == 3 && next <= s[0].hi <= s[1].hi <= s[2].hi
  {
    hide SaveHostSlot, SectionSwap, WithoutSerial, After;
    var was, name := ExistingHost(v, f.id), FormName(f);
    var b := WithoutSerial(v, was);
    SlotForward(v, b, next, was, SshS, f.ssh, name, certKey);
    SlotForward(v, After(b, s[0]), s[0].hi, was, TelnetS, f.telnet, name, certKey);
    SlotForward(v, After(After(b, s[0]), s[1]), s[1].hi, was, WebDavS, WebDavSection(f.webdav), name, certKey);
  }

  // ----- logins -----

  predicate Gone(w: Vault, x: Option<Id>) { x.Some? ==> x.value !in w }

  /** The identity that `had` names, as it was. */
  function Had(v: Vault, had: Option<Id>): Option<Identity> {
    if had.Some? && had.value in v && v[had.value].IdentityP? then Some(v[had.value].identity) else None
  }

  /** A password left alone stays; an emptied one goes. */
  function PasswordFor(v: Vault, had: Option<Id>, c: Login): Option<string> {
    if c.password.Some? then (if c.password.value == "" then None else c.password)
    else if Had(v, had).Some? then Had(v, had).value.password else None
  }

  /** The key chosen, or else the one the certificate was issued for. */
  function KeyFor(v: Vault, c: Login, certKey: CertKeys): Option<Id> {
    if c.keyId.Some? || c.certificate.None? then c.keyId
    else if c.certificate.value in v && v[c.certificate.value].OtherP? then certKey(v[c.certificate.value].body)
    else None
  }

  function OthersFor(v: Vault, had: Option<Id>, c: Login): Option<string> {
    c.others(if Had(v, had).Some? then Some(Had(v, had).value.extras) else None)
  }

  predicate SaysNothingAtAll(v: Vault, had: Option<Id>, c: Login, certKey: CertKeys) {
    && Trim(c.username) == "" && PasswordFor(v, had, c) == None && KeyFor(v, c, certKey) == None && !c.sshId
    && OthersFor(v, had, c) == Some("")
  }

  /** `p` is an inline identity with what was typed into the form. */
  predicate Typed(v: Vault, p: Payload, had: Option<Id>, c: Login, name: string, certKey: CertKeys) {
    && IsInline(p)
    && var i := p.identity;
    && i.name == name && i.username == Trim(c.username) && i.password == PasswordFor(v, had, c)
    && i.sshKeyId == KeyFor(v, c, certKey)
    && i.sshCertificateId == (if i.sshKeyId.Some? then c.certificate else None)
    && i.sshId == c.sshId && i.sshIdKeyType == (if c.sshId then c.sshIdKeyType else None)
    && OthersFor(v, had, c) == Some(i.extras)
  }

  /** Login `c` of a form, saved where inline identity `had` was: a keychain
      identity is referred to, an empty login names nothing, any other is the
      config's own inline identity. An inline identity not used any more is gone. */
  predicate LoginKept(v: Vault, w: Vault, had: Option<Id>, now: Option<Id>, c: Login, name: string,
      certKey: CertKeys)
  {
    if c.identityId.Some? then now == c.identityId && CL.InKeychain(v, now) && CL.InKeychain(w, now) && Gone(w, had)
    else if SaysNothingAtAll(v, had, c, certKey) then now == None && Gone(w, had)
    else
      && now.Some? && now.value in w && Typed(v, w[now.value], had, c, name, certKey)
      && (if had.Some? then now == had else now.value !in v)
  }

  /** What is written is there in the end, what is dropped is not, and the keychain stays. */
  ghost predicate Settles(b: Vault, puts: map<Id, Payload>, drops: set<Id>, w: Vault) {
    && (forall x :: x in puts ==> x in w && w[x] == puts[x])
    && (forall x :: x in drops ==> x !in w)
    && forall x :: CL.InKeychain(b, Some(x)) ==> CL.InKeychain(w, Some(x))
  }

  /** The certificates among the rows are those of `v`. */
  ghost predicate OthersFrom(v: Vault, now: Vault) {
    forall x :: x in now && now[x].OtherP? ==> x in v && v[x] == now[x]
  }

  lemma KeyIsFor(v: Vault, now: Vault, c: Login, certKey: CertKeys)
    requires OthersFrom(v, now) && LoginKey(now, c, certKey).Ok?
    ensures LoginKey(now, c, certKey).value == KeyFor(v, c, certKey)
  {
  }

  lemma LoginSettles(v: Vault, b: Vault, now: Vault, next: Id, had: Option<(Id, Identity)>, c: Login, name: string,
      certKey: CertKeys, w: Vault)
    requires IdsBelow(v, next) && OthersFrom(v, now) && SaveLogin(now, next, had, c, name, certKey).Ok?
    requires forall x :: CL.InKeychain(now, Some(x)) ==> CL.InKeychain(b, Some(x)) && CL.InKeychain(v, Some(x))
    requires had.Some? ==> had.value.0 in v && v[had.value.0] == IdentityP(had.value.1)
    requires var e := SaveLogin(now, next, had, c, name, certKey).value.0; Settles(b, e.puts, e.drops, w)
    ensures LoginKept(v, w, if had.Some? then Some(had.value.0) else None,
      SaveLogin(now, next, had, c, name, certKey).value.1, c, name, certKey)
  {
    hide LoginKey, KeyFor, Trim;
    if c.identityId.None? { KeyIsFor(v, now, c, certKey); }
  }

  // ----- sections -----

  /** The config of that kind that `ref` names, if it is there. */
  function ConfigIn(v: Vault, ref: Option<Id>, sort: Sort): Option<Payload> {
    if ref.Some? && ref.value in v && SortOf(v[ref.value]) == sort then Some(v[ref.value]) else None
  }

  /** The config a slot names now: the one it named before, or a new one. */
  predicate SameOrNewConfig(v: Vault, w: Vault, sort: Sort, ref: Option<Id>, now: Option<Id>) {
    && now.Some? && now.value in w && SortOf(w[now.value]) == sort
    && (if ConfigIn(v, ref, sort).Some? then now == ref else now.value !in v)
  }

  /** The slot is empty, and what it held is gone. */
  predicate Emptied(v: Vault, w: Vault, sort: Sort, ref: Option<Id>, now: Option<Id>) {
    now == None && (ConfigIn(v, ref, sort).Some? ==> Gone(w, ref)) && Gone(w, InlineAt(v, ref))
  }

  /** A section of a form, saved where config `ref` was: one left out is gone
      with its login, any other is a config with the form's port, settings and login. */
  predicate SectionKept(v: Vault, w: Vault, sort: Sort, ref: Option<Id>, now: Option<Id>, f: Option<SectionForm>,
      name: string, certKey: CertKeys)
  {
    var was := ConfigIn(v, ref, sort);
    if f.None? then Emptied(v, w, sort, ref, now)
    else
      && SameOrNewConfig(v, w, sort, ref, now)
      && PortOf(w[now.value]) == (if f.value.port == Some(0) then None else f.value.port)
      && RestOf(w[now.value]) == f.value.settings(if was.Some? && sort != WebDavS then RestOf(was.value) else "")
      && LoginKept(v, w, InlineAt(v, ref), IdentityRef(w[now.value]), f.value.login, name, certKey)
  }

  /** The WebDAV section replaces the stored fields whole. */
  predicate WebDavKept(v: Vault, w: Vault, ref: Option<Id>, now: Option<Id>, f: Option<WebDavForm>, name: string,
      certKey: CertKeys)
  {
    if f.None? then Emptied(v, w, WebDavS, ref, now)
    else
      && SameOrNewConfig(v, w, WebDavS, ref, now) && RestOf(w[now.value]) == f.value.section
      && LoginKept(v, w, InlineAt(v, ref), IdentityRef(w[now.value]), f.value.login, name, certKey)
  }

  lemma WebDavIsSection(v: Vault, w: Vault, ref: Option<Id>, now: Option<Id>, f: Option<WebDavForm>, name: string,
      certKey: CertKeys)
    requires SectionKept(v, w, WebDavS, ref, now, WebDavSection(f), name, certKey)
    ensures WebDavKept(v, w, ref, now, f, name, certKey)
  {
    hide LoginKept;
  }

  lemma ConfiguredIs(was: Option<(Id, Payload)>, sort: Sort, f: SectionForm, identity: Option<Id>)
    requires sort in {SshS, TelnetS, WebDavS} && (was.Some? ==> SortOf(was.value.1) == sort)
    requires sort == WebDavS ==> f.port == None
    ensures
      var p := Configured(was, sort, f.port, f.settings, identity);
      && SortOf(p) == sort && IdentityRef(p) == identity
      && PortOf(p) == (if f.port == Some(0) then None else f.port)
      && RestOf(p) == f.settings(if was.Some? && sort != WebDavS then RestOf(was.value.1) else "")
  {
  }

  lemma HadIs(v: Vault, ref: Option<Id>)
    ensures
      var had := InlineOfConfig(v, ref);
      && (had.Some? ==> had.value.0 in v && v[had.value.0] == IdentityP(had.value.1) &&
                        InlineAt(v, ref) == Some(had.value.0))
      && (had.None? ==> InlineAt(v, ref) == None)
  {
  }

  /** A saved section puts its config around its login. */
  lemma SlotPuts(now: Vault, next: Id, sort: Sort, was: Option<(Id, Payload)>, had: Option<(Id, Identity)>,
      f: SectionForm, name: string, certKey: CertKeys)
    requires SaveSlot(now, next, sort, was, had, Some(f), name, certKey).Ok?
    ensures SaveLogin(now, next, had, f.login, name, certKey).Ok?
    ensures
      var r := SaveSlot(now, next, sort, was, had, Some(f), name, certKey).value;
      var (e, identity) := SaveLogin(now, next, had, f.login, name, certKey).value;
      && r.1 == Some(if was.Some? then was.value.0 else e.next) && r.0.drops == e.drops
      && r.0.puts == e.puts[r.1.value := Configured(was, sort, f.port, f.settings, identity)]
      && r.1.value in r.0.puts && r.0.puts[r.1.value] == Configured(was, sort, f.port, f.settings, identity)
  {
    hide SaveLogin, Configured;
  }

  lemma LoginMisses(v: Vault, now: Vault, next: Id, sort: Sort, ref: Option<Id>, c: Login, name: string,
      certKey: CertKeys)
    requires IdsBelow(v, next) && sort in {SshS, TelnetS, WebDavS}
    requires SaveLogin(now, next, InlineOfConfig(v, ref), c, name, certKey).Ok?
    ensures
      var (e, _) := SaveLogin(now, next, InlineOfConfig(v, ref), c, name, certKey).value;
      var was := ConfigOf(v, ref, sort);
      && next <= e.next && (if was.Some? then was.value.0 else e.next) !in e.puts
  {
    hide LoginKey, Trim;
  }

  lemma PartSettles(b: Vault, part: map<Id, Payload>, puts: map<Id, Payload>, drops: set<Id>, id: Id, w: Vault)
    requires Settles(b, puts, drops, w) && id !in part && id in puts && puts == part[id := puts[id]]
    ensures Settles(b, part, drops, w) && id in w && w[id] == puts[id]
  {
    hide CL.InKeychain;
    assert forall x :: x in part ==> x in puts && puts[x] == part[x];
  }

  lemma SectionIsKept(v: Vault, w: Vault, next: Id, sort: Sort, ref: Option<Id>, f: SectionForm, now: Option<Id>,
      identity: Option<Id>, name: string, certKey: CertKeys)
    requires sort in {SshS, TelnetS, WebDavS} && (sort == WebDavS ==> f.port == None)
    requires now.Some? && now.value in w && LoginKept(v, w, InlineAt(v, ref), identity, f.login, name, certKey)
    requires w[now.value] == Configured(ConfigOf(v, ref, sort), sort, f.port, f.settings, identity)
    requires if ConfigOf(v, ref, sort).Some? then now == Some(ConfigOf(v, ref, sort).value.0) else now.value !in v
    ensures SectionKept(v, w, sort, ref, now, Some(f), name, certKey)
  {
    hide LoginKept, Configured;
    ConfiguredIs(ConfigOf(v, ref, sort), sort, f, identity);
  }

  lemma SectionSettles(v: Vault, b: Vault, now: Vault, next: Id, sort: Sort, ref: Option<Id>, f: Option<SectionForm>,
      name: string, certKey: CertKeys, w: Vault)
    requires IdsBelow(v, next) && OthersFrom(v, now) && sort in {SshS, TelnetS, WebDavS} && Points(v, ref, sort)
    requires f.Some? && sort == WebDavS ==> f.value.port == None
    requires forall x :: CL.InKeychain(now, Some(x)) ==> CL.InKeychain(b, Some(x)) && CL.InKeychain(v, Some(x))
    requires SaveSlot(now, next, sort, ConfigOf(v, ref, sort), InlineOfConfig(v, ref), f, name, certKey).Ok?
    requires
      var e := SaveSlot(now, next, sort, ConfigOf(v, ref, sort), InlineOfConfig(v, ref), f, name, certKey).value.0;
      Settles(b, e.puts, e.drops, w)
    ensures SectionKept(v, w, sort, ref, SaveSlot(now, next, sort, ConfigOf(v, ref, sort), InlineOfConfig(v, ref), f,
      name, certKey).value.1, f, name, certKey)
  {
    var was, had := ConfigOf(v, ref, sort), InlineOfConfig(v, ref);
    if f.None? {
      hide CL.InKeychain, OthersFrom;
      HadIs(v, ref);
    } else {
      hide *;
      HadIs(v, ref);
      SlotPuts(now, next, sort, was, had, f.value, name, certKey);
      var r := SaveSlot(now, next, sort, was, had, f, name, certKey).value;
      var (e, identity) := SaveLogin(now, next, had, f.value.login, name, certKey).value;
      LoginMisses(v, now, next, sort, ref, f.value.login, name, certKey);
      PartSettles(b, e.puts, r.0.puts, r.0.drops, r.1.value, w);
      LoginSettles(v, b, now, next, had, f.value.login, name, certKey, w);
      SectionIsKept(v, w, next, sort, ref, f.value, r.1, identity, name, certKey);
    }
  }


  // ----- the whole save -----

  lemma SwapSettles(b: Vault, a: Assembly, w: Vault, k: nat)
    requires Assembled(b, a) && Makes(b, a, w) && k < SLOTS
    ensures |a.swaps| == SLOTS && Settles(b, a.swaps[k].puts, a.swaps[k].drops, w)
  {
    hide Assembled, Makes;
    AssembledHasSlots(b, a);
    AllVisibleStand(b, a, w);
    PutsAreMade(b, a, w, k);
  }

  lemma PutsAreMade(b: Vault, a: Assembly, w: Vault, k: nat)
    requires Makes(b, a, w) && |a.swaps| == SLOTS && k < SLOTS
    ensures forall x :: x in a.swaps[k].puts ==> x in w && w[x] == a.swaps[k].puts[x]
    ensures forall x :: x in a.swaps[k].drops ==> x !in w
  {
    assert SlotsMade(a, w);
    forall x | x in a.swaps[k].drops
      ensures x !in w
    {
      assert DroppedBySlot(a, x);
    }
  }

  lemma SaveMakes(b: Vault, o: Id, owner: Payload, s: seq<Swap>, w: Vault)
    requires ClientSave(b, o, owner, s) && |s| == SLOTS && w == Saved(b, o, owner, s)
    ensures
      var a := AssemblyOf(o, Some(owner), s, map[]);
      Assembled(b, a) && Makes(b, a, w) && a.swaps == s
  {
    hide ClientSave, Assembled, Makes, AllApart, Saved;
    SaveIsAssembled(b, o, owner, s);
    SaveIsApart(b, o, owner, s);
    ApartMakes(b, o, owner, s);
  }

  /** Keychain identities and certificates among the rows are those of `v`. */
  ghost predicate SeenFrom(v: Vault, b: Vault, now: Vault) {
    && OthersFrom(v, now)
    && forall x :: CL.InKeychain(now, Some(x)) ==> CL.InKeychain(b, Some(x)) && CL.InKeychain(v, Some(x))
  }

  lemma SeenAtFirst(v: Vault, h: Option<Host>)
    ensures SeenFrom(v, WithoutSerial(v, h), WithoutSerial(v, h))
  {
  }

  lemma SeenAfter(v: Vault, b: Vault, now: Vault, s: Swap)
    requires SeenFrom(v, b, now) && PutsPlain(s.puts)
    ensures SeenFrom(v, b, After(now, s))
  {
  }

  lemma SlotIsPlain(b: Vault, s: Swap)
    requires ClientSlot(b, s)
    ensures PutsPlain(s.puts)
  {
  }

  lemma HostSlotSettles(v: Vault, now: Vault, next: Id, was: Option<Host>, sort: Sort, f: Option<SectionForm>,
      name: string, certKey: CertKeys, w: Vault)
    requires SaveHostSlot(v, now, next, was, sort, f, name, certKey).Ok? && sort in {SshS, TelnetS, WebDavS}
    requires IdsBelow(v, next) && Points(v, HostSlot(was, sort), sort) && SeenFrom(v, WithoutSerial(v, was), now)
    requires f.Some? && sort == WebDavS ==> f.value.port == None
    requires
      var s := SectionSwap(v, now, next, was, sort, f, name, certKey);
      Settles(WithoutSerial(v, was), s.puts, s.drops, w)
    ensures SectionKept(v, w, sort, HostSlot(was, sort), SectionSwap(v, now, next, was, sort, f, name, certKey).now, f,
      name, certKey)
  {
    hide SaveSlot, SectionKept, WithoutSerial, Settles, Points, HostSlot;
    SectionSettles(v, WithoutSerial(v, was), now, next, sort, HostSlot(was, sort), f, name, certKey, w);
  }

  /** The three sections of a host, saved. */
  ghost predicate HostSections(v: Vault, w: Vault, o: Id, f: HostForm, certKey: CertKeys) {
    && o in w && w[o].HostP?
    && var h, was := w[o].host, ExistingHost(v, f.id);
    && SectionKept(v, w, SshS, HostSlot(was, SshS), h.sshConfigId, f.ssh, FormName(f), certKey)
    && SectionKept(v, w, TelnetS, HostSlot(was, TelnetS), h.telnetConfigId, f.telnet, FormName(f), certKey)
    && SectionKept(v, w, WebDavS, HostSlot(was, WebDavS), h.webdavConfigId, WebDavSection(f.webdav), FormName(f),
         certKey)
  }

  lemma SectionsSettle(v: Vault, next: Id, f: HostForm, certKey: CertKeys, s: seq<Swap>, w: Vault, o: Id)
    requires WellFormed(v) && IdsBelow(v, next) && |s| == SLOTS && Sections(v, next, f, certKey, s)
    requires forall k :: 0 <= k < SLOTS ==>
      Settles(WithoutSerial(v, ExistingHost(v, f.id)), s[k].puts, s[k].drops, w)
    requires o in w && w[o] == OwnerOf(v, f, s)
    ensures HostSections(v, w, o, f, certKey)
  {
    hide WellFormed, SaveHostSlot, SectionSwap, WithoutSerial, After, Settles, SectionKept, ClientSlot, Points,
      HostSlot, SeenFrom, IdsBelow;
    var was, name := ExistingHost(v, f.id), FormName(f);
    var b := WithoutSerial(v, was);
    WellFormedIsClosed(v);
    HostRefs(v, was, f.id);
    SectionsAreSlots(v, next, f, certKey, s);
    SlotIsPlain(b, s[0]);
    SlotIsPlain(b, s[1]);
    SeenAtFirst(v, was);
    SeenAfter(v, b, b, s[0]);
    SeenAfter(v, b, After(b, s[0]), s[1]);
    BelowLater(v, next, s[0].hi);
    BelowLater(v, next, s[1].hi);
    WebDavHasNoPort(f.webdav);
    HostSlotSettles(v, b, next, was, SshS, f.ssh, name, certKey, w);
    HostSlotSettles(v, After(b, s[0]), s[0].hi, was, TelnetS, f.telnet, name, certKey, w);
    HostSlotSettles(v, After(After(b, s[0]), s[1]), s[1].hi, was, WebDavS, WebDavSection(f.webdav), name, certKey, w);
  }

  lemma BelowLater(v: Vault, next: Id, later: Id)
    requires IdsBelow(v, next) && next <= later
    ensures IdsBelow(v, later)
  {
  }

  lemma WebDavHasNoPort(f: Option<WebDavForm>)
    ensures WebDavSection(f).Some? ==> WebDavSection(f).value.port == None
  {
  }

  // ----- everything else -----

  /** A config of `o`, or the inline identity behind one. */
  ghost predicate MayChange(v: Vault, o: Id, x: Id) {
    Owns(v, o, x) || exists c: Id :: Owns(v, o, c) && InlineAt(v, Some(c)) == Some(x)
  }

  /** Whatever is not the owner, its configs, their inline identities or
      `loose` is as it was, and what is new has a new id and is no host or group. */
  ghost predicate RestStands(v: Vault, w: Vault, next: Id, o: Id, loose: set<Id>) {
    && (forall x :: x in v && x != o && x !in loose && !MayChange(v, o, x) ==> AsBefore(v, w, x))
    && (forall x :: x in w && x !in v ==> next <= x && (x == o || !IsOwner(w[x])))
  }

  lemma SlotTouchesOwn(b: Vault, s: Swap, x: Id)
    requires ClientSlot(b, s) || Kept(s)
    requires Points(b, s.prior, s.sort) && s.sort in {SshS, TelnetS, WebDavS}
    requires x in b && x < s.lo && (x in s.puts || x in s.drops)
    ensures Some(x) == s.prior || Some(x) == InlineAt(b, s.prior)
  {
  }

  lemma NewRowsAreNew(b: Vault, s: Swap, x: Id)
    requires ClientSlot(b, s) || Kept(s)
    requires x in s.puts && x !in b && Points(b, s.prior, s.sort)
    ensures s.lo <= x && !IsOwner(s.puts[x])
  {
  }

  lemma PriorOfSave(b: Vault, o: Id, owner: Payload, s: seq<Swap>, k: nat)
    requires ClientSave(b, o, owner, s) && k < SLOTS
    ensures |s| == SLOTS && s[k].prior == (if o in b then SlotRef(b[o], k) else None) && s[0].lo <= s[k].lo
    ensures s[k].sort in {SshS, TelnetS, WebDavS} && o !in s[k].puts
  {
    SlotMisses(b, o, owner, s, k);
    hide WellFormed, ClientSlot, Kept, Points;
  }

  lemma OwnedIsChanged(b: Vault, o: Id, k: nat, x: Id)
    requires o in b && k < SLOTS
    requires SlotRef(b[o], k) == Some(x) ||
      (SlotRef(b[o], k).Some? && InlineAt(b, SlotRef(b[o], k)) == Some(x))
    ensures MayChange(b, o, x)
  {
    var c := SlotRef(b[o], k).value;
    SlotsAreConfigs(b[o], c);
    assert Owns(b, o, c);
  }

  lemma OthersNotTouched(b: Vault, o: Id, owner: Payload, s: seq<Swap>, k: nat, x: Id)
    requires ClientSave(b, o, owner, s) && k < SLOTS && x in b && !MayChange(b, o, x)
    ensures |s| == SLOTS && x !in s[k].puts && x !in s[k].drops
  {
    hide ClientSave, MayChange, ClientSlot, Kept, Points, InlineAt, SlotRef;
    PriorOfSave(b, o, owner, s, k);
    SlotsOfSave(b, o, owner, s, k);
    if x in s[k].puts || x in s[k].drops {
      SlotTouchesOwn(b, s[k], x);
      NoInlineOfNone(b);
      if o in b { OwnedIsChanged(b, o, k, x); }
    }
  }

  lemma NoInlineOfNone(b: Vault)
    ensures InlineAt(b, None) == None
  {
  }

  lemma UntouchedStands(b: Vault, a: Assembly, w: Vault, x: Id)
    requires Makes(b, a, w) && |a.swaps| == SLOTS && a.tags == map[] && a.moved == map[] && x != a.o
    requires forall k :: 0 <= k < SLOTS ==> x !in a.swaps[k].puts && x !in a.swaps[k].drops
    ensures (x in b <==> x in w) && (x in b ==> w[x] == b[x])
  {
  }

  lemma NewIsPut(b: Vault, a: Assembly, w: Vault, x: Id) returns (k: nat)
    requires Makes(b, a, w) && |a.swaps| == SLOTS && a.tags == map[] && a.moved == map[] && x != a.o
    requires x in w && x !in b
    ensures k < SLOTS && x in a.swaps[k].puts && w[x] == a.swaps[k].puts[x]
  {
    assert PutBySlot(a, x) || DroppedBySlot(a, x);
    assert SlotsMade(a, w);
    k :| 0 <= k < SLOTS && x in a.swaps[k].puts;
  }

  lemma SaveRestStands(b: Vault, next: Id, o: Id, owner: Payload, s: seq<Swap>, w: Vault)
    requires ClientSave(b, o, owner, s) && |s| == SLOTS && w == Saved(b, o, owner, s)
    requires next <= s[0].lo && (o in b || next <= o)
    ensures RestStands(b, w, next, o, {})
  {
    hide ClientSave, Saved, Makes, MayChange, Assembled, ClientSlot, Kept, Points, IsOwner;
    SaveMakes(b, o, owner, s, w);
    var a := AssemblyOf(o, Some(owner), s, map[]);
    forall x | x in b && x != o && !MayChange(b, o, x)
      ensures AsBefore(b, w, x)
    {
      forall k | 0 <= k < SLOTS
        ensures x !in s[k].puts && x !in s[k].drops
      {
        OthersNotTouched(b, o, owner, s, k, x);
      }
      UntouchedStands(b, a, w, x);
    }
    forall x | x in w && x !in b && x != o
      ensures next <= x && !IsOwner(w[x])
    {
      var k := NewIsPut(b, a, w, x);
      PriorOfSave(b, o, owner, s, k);
      SlotsOfSave(b, o, owner, s, k);
      NewRowsAreNew(b, s[k], x);
    }
  }

  /** The serial config a form leaves behind. */
  function SerialLeft(v: Vault, h: Option<Host>): set<Id> {
    if h.Some? && h.value.serialConfigId.Some? && h.value.serialConfigId.value in v &&
      v[h.value.serialConfigId.value].SerialConfigP?
    then {h.value.serialConfigId.value} else {}
  }

  lemma WithoutSerialIs(v: Vault, h: Option<Host>)
    ensures WithoutSerial(v, h) == v - SerialLeft(v, h)
    ensures forall x :: x in SerialLeft(v, h) ==> x in v && v[x].SerialConfigP?
  {
  }

  /** Leaving out a serial config changes nothing about what belongs to the owner. */
  lemma ChangesAlike(v: Vault, b: Vault, loose: set<Id>, o: Id, x: Id)
    requires b == v - loose && (forall y :: y in loose ==> y in v && v[y].SerialConfigP?)
    requires MayChange(b, o, x)
    ensures MayChange(v, o, x)
  {
    if !Owns(b, o, x) {
      var c: Id :| Owns(b, o, c) && InlineAt(b, Some(c)) == Some(x);
      assert Owns(v, o, c) && InlineAt(v, Some(c)) == Some(x);
    }
  }

  lemma RestStandsFrom(v: Vault, b: Vault, w: Vault, next: Id, o: Id, loose: set<Id>)
    requires b == v - loose && (forall y :: y in loose ==> y in v && v[y].SerialConfigP?)
    requires RestStands(b, w, next, o, {}) && IdsBelow(v, next)
    ensures RestStands(v, w, next, o, loose) && w.Keys !! loose
  {
    hide MayChange;
    forall x | x in v && x != o && x !in loose && !MayChange(v, o, x)
      ensures AsBefore(v, w, x)
    {
      if MayChange(b, o, x) { ChangesAlike(v, b, loose, o, x); }
      assert x in b && AsBefore(b, w, x);
    }
  }

  /** A saved host form: its row, its three sections, and nothing else but the serial config it left behind. */
  ghost predicate HostFormSaved(v: Vault, w: Vault, next: Id, o: Id, f: HostForm, certKey: CertKeys) {
    && HostRow(v, w, o, f)
    && var h, was := w[o].host, Edited(v, f.id);
    && SectionKept(v, w, SshS, if was.Some? then was.value.sshConfigId else None, h.sshConfigId, f.ssh, h.name, certKey)
    && SectionKept(v, w, TelnetS, if was.Some? then was.value.telnetConfigId else None, h.telnetConfigId, f.telnet,
         h.name, certKey)
    && WebDavKept(v, w, if was.Some? then was.value.webdavConfigId else None, h.webdavConfigId, f.webdav, h.name,
         certKey)
    && RestStands(v, w, next, o, SerialLeft(v, was)) && w.Keys !! SerialLeft(v, was)
  }

  lemma SectionsAreTheForm(v: Vault, w: Vault, next: Id, o: Id, f: HostForm, certKey: CertKeys)
    requires HostRow(v, w, o, f) && HostSections(v, w, o, f, certKey) && ExistingHost(v, f.id) == Edited(v, f.id)
    requires RestStands(v, w, next, o, SerialLeft(v, Edited(v, f.id))) && w.Keys !! SerialLeft(v, Edited(v, f.id))
    ensures HostFormSaved(v, w, next, o, f, certKey)
  {
    hide SectionKept, RestStands, SerialLeft, WebDavKept, WebDavSection, Edited;
    var was := ExistingHost(v, f.id);
    assert FormName(f) == w[o].host.name;
    WebDavIsSection(v, w, HostSlot(was, WebDavS), w[o].host.webdavConfigId, f.webdav, FormName(f), certKey);
  }

  lemma HostSavedParts(v: Vault, next: Id, f: HostForm, certKey: CertKeys, b: Vault, owner: Payload, s: seq<Swap>)
    requires SaveHost(v, next, f, certKey).Ok?
    requires HostSaved(v, next, f, SaveHost(v, next, f, certKey).value, b, owner, s) && owner == OwnerOf(v, f, s)
    ensures
      var r := SaveHost(v, next, f, certKey).value;
      && b == WithoutSerial(v, ExistingHost(v, f.id)) && ClientSave(b, r.1, owner, s) && r.0 == Saved(b, r.1, owner, s)
      && r.1 in r.0 && r.0[r.1] == OwnerOf(v, f, s)
  {
    hide SaveHost, WithoutSerial, ClientSave, SavedHost, ExistingHost;
  }

  lemma FirstSlotAt(v: Vault, next: Id, f: HostForm, certKey: CertKeys, s: seq<Swap>)
    requires Sections(v, next, f, certKey, s)
    ensures |s| == SLOTS && s[0].lo == next
  {
    hide SaveHostSlot, WithoutSerial, After;
  }

  lemma OwnerIsThere(v: Vault, f: HostForm, b: Vault, o: Id)
    requires b == WithoutSerial(v, ExistingHost(v, f.id))
    ensures Edited(v, f.id).Some? && o == f.id.value ==> o in b
  {
  }

  lemma HostRowAt(v: Vault, w: Vault, o: Id, f: HostForm)
    requires HostRow(v, w, o, f)
    ensures Edited(v, f.id).Some? ==> f.id.Some? && o == f.id.value
  {
    hide Trim;
  }

  /** A successful save of a host leaves exactly what the form says: the host's
      row, its sections with their ports and logins, and all other rows as they
      were but for the serial config the host had. */
  lemma SaveStoresTheForm(v: Vault, next: Id, f: HostForm, certKey: CertKeys)
    requires WellFormed(v) && IdsBelow(v, next) && SaveHost(v, next, f, certKey).Ok?
    ensures
      var r := SaveHost(v, next, f, certKey).value;
      HostFormSaved(v, r.0, next, r.1, f, certKey)
  {
    hide *;
    var r, was := SaveHost(v, next, f, certKey).value, Edited(v, f.id);
    SavedHostIsTheForm(v, next, f, certKey);
    var b, owner, s := SaveTakenApart(v, next, f, certKey);
    HostSavedParts(v, next, f, certKey, b, owner, s);
    SaveMakes(b, r.1, owner, s, r.0);
    var a := AssemblyOf(r.1, Some(owner), s, map[]);
    forall k | 0 <= k < SLOTS
      ensures Settles(b, s[k].puts, s[k].drops, r.0)
    {
      SwapSettles(b, a, r.0, k);
    }
    SectionsSettle(v, next, f, certKey, s, r.0, r.1);
    FirstSlotAt(v, next, f, certKey, s);
    OwnerIsThere(v, f, b, r.1);
    HostRowAt(v, r.0, r.1, f);
    SaveRestStands(b, next, r.1, owner, s, r.0);
    WithoutSerialIs(v, was);
    RestStandsFrom(v, b, r.0, next, r.1, SerialLeft(v, was));
    SectionsAreTheForm(v, r.0, next, r.1, f, certKey);
  }

  // ----- when a save succeeds -----

  /** A login can be saved: the keychain identity is there; or the certificate
      is there and was issued for the key, the key is there, and the rest was resolved. */
  predicate LoginAccepted(v: Vault, had: Option<Id>, c: Login, certKey: CertKeys) {
    if c.identityId.Some? then CL.InKeychain(v, c.identityId)
    else
      && (c.certificate.Some? ==> CertificateFits(v, c.certificate.value, c.keyId, certKey))
      && (KeyFor(v, c, certKey).Some? ==>
            KeyFor(v, c, certKey).value in v && v[KeyFor(v, c, certKey).value].SshKeyP?)
      && OthersFor(v, had, c).Some?
  }

  predicate CertificateFits(v: Vault, cert: Id, key: Option<Id>, certKey: CertKeys) {
    && cert in v && v[cert].OtherP? && v[cert].otherKind == CERTIFICATE
    && (certKey(v[cert].body).None? || key.None? || certKey(v[cert].body) == key)
  }

  predicate SectionAccepted(v: Vault, ref: Option<Id>, f: Option<SectionForm>, certKey: CertKeys) {
    f.Some? ==> LoginAccepted(v, InlineAt(v, ref), f.value.login, certKey)
  }

  /** Rows that logins are checked against. */
  predicate Looked(p: Payload) { p.SshKeyP? || p.OtherP? || (p.IdentityP? && p.identity.isVisible) }

  ghost predicate LooksAlike(v: Vault, now: Vault) {
    && (forall x :: x in v && Looked(v[x]) ==> x in now && now[x] == v[x])
    && (forall x :: x in now && Looked(now[x]) ==> x in v && v[x] == now[x])
  }

  lemma LoginSavesExactly(v: Vault, now: Vault, next: Id, had: Option<(Id, Identity)>, c: Login, name: string,
      certKey: CertKeys)
    requires LooksAlike(v, now) && (had.Some? ==> had.value.0 in v && v[had.value.0] == IdentityP(had.value.1))
    ensures SaveLogin(now, next, had, c, name, certKey).Ok? <==>
      LoginAccepted(v, if had.Some? then Some(had.value.0) else None, c, certKey)
  {
    hide Trim;
  }

  lemma SlotSavesExactly(v: Vault, now: Vault, next: Id, was: Option<Host>, sort: Sort, f: Option<SectionForm>,
      name: string, certKey: CertKeys)
    requires LooksAlike(v, now)
    ensures SaveHostSlot(v, now, next, was, sort, f, name, certKey).Ok? <==>
      SectionAccepted(v, HostSlot(was, sort), f, certKey)
  {
    hide SaveLogin, LoginAccepted, LooksAlike, InlineAt, InlineOfConfig, HostSlot;
    HadIs(v, HostSlot(was, sort));
    if f.Some? {
      LoginSavesExactly(v, now, next, InlineOfConfig(v, HostSlot(was, sort)), f.value.login, name, certKey);
    }
  }

  lemma LooksAlikeAtFirst(v: Vault, h: Option<Host>)
    ensures LooksAlike(v, WithoutSerial(v, h))
  {
  }

  lemma SlotTouchesNone(b: Vault, s: Swap, x: Id)
    requires ClientSlot(b, s) && Points(b, s.prior, s.sort) && s.sort in {SshS, TelnetS, WebDavS}
    requires x in b && x < s.lo && Looked(b[x])
    ensures x !in s.puts && x !in s.drops
  {
    if x in s.puts || x in s.drops { SlotTouchesOwn(b, s, x); }
  }

  lemma LooksAlikeAfter(v: Vault, b: Vault, now: Vault, s: Swap)
    requires LooksAlike(v, b) && LooksAlike(v, now) && IdsBelow(v, s.lo)
    requires ClientSlot(b, s) && Points(b, s.prior, s.sort) && s.sort in {SshS, TelnetS, WebDavS}
    ensures LooksAlike(v, After(now, s))
  {
    hide ClientSlot, Points;
    SlotIsPlain(b, s);
    forall x | x in v && Looked(v[x])
      ensures x in After(now, s) && After(now, s)[x] == v[x]
    {
      SlotTouchesNone(b, s, x);
    }
  }

  /** What a host form must say before any section is looked at. */
  predicate FormAccepted(v: Vault, f: HostForm) {
    && (f.ssh.Some? || f.telnet.Some? || f.webdav.Some?) && Trim(f.address) != ""
    && (f.groupId.Some? ==> f.groupId.value in v && v[f.groupId.value].GroupP?)
    && (f.webdav.Some? ==> f.webdavOk && f.webdav.value.modeKnown && f.webdav.value.fingerprintOk)
  }

  predicate WebDavAccepted(v: Vault, ref: Option<Id>, f: Option<WebDavForm>, certKey: CertKeys) {
    f.Some? ==> LoginAccepted(v, InlineAt(v, ref), f.value.login, certKey)
  }

  /** The form and each of its logins can be saved. */
  predicate Savable(v: Vault, f: HostForm, certKey: CertKeys) {
    var was := Edited(v, f.id);
    && FormAccepted(v, f)
    && SectionAccepted(v, if was.Some? then was.value.sshConfigId else None, f.ssh, certKey)
    && SectionAccepted(v, if was.Some? then was.value.telnetConfigId else None, f.telnet, certKey)
    && WebDavAccepted(v, if was.Some? then was.value.webdavConfigId else None, f.webdav, certKey)
  }

  lemma SavableIs(v: Vault, f: HostForm, certKey: CertKeys)
    ensures
      var was := ExistingHost(v, f.id);
      Savable(v, f, certKey) <==>
        CheckHostForm(v, f) == None && (f.webdav.Some? ==> f.webdav.value.modeKnown && f.webdav.value.fingerprintOk) &&
        SectionAccepted(v, HostSlot(was, SshS), f.ssh, certKey) &&
        SectionAccepted(v, HostSlot(was, TelnetS), f.telnet, certKey) &&
        SectionAccepted(v, HostSlot(was, WebDavS), WebDavSection(f.webdav), certKey)
  {
    hide LoginAccepted, InlineAt, Trim;
  }

  /** A section that saves leaves alone what the next ones look at. */
  lemma SlotLooksAlike(v: Vault, now: Vault, next: Id, was: Option<Host>, sort: Sort, f: Option<SectionForm>,
      name: string, certKey: CertKeys, lo: Id)
    requires WellFormed(v) && IdsBelow(v, lo) && lo <= next && sort in {SshS, TelnetS, WebDavS}
    requires SharedRowsFrom(WithoutSerial(v, was), now) && Points(v, HostSlot(was, sort), sort)
    requires SaveHostSlot(v, now, next, was, sort, f, name, certKey).Ok? && LooksAlike(v, now)
    ensures
      var s := SectionSwap(v, now, next, was, sort, f, name, certKey);
      LooksAlike(v, After(now, s)) && SharedRowsFrom(WithoutSerial(v, was), After(now, s)) && lo <= s.hi
  {
    hide WellFormed, SaveHostSlot, SectionSwap, Points, WithoutSerial, ClientSlot, SharedRowsFrom, IdsBelow, LooksAlike,
      After, HostSlot;
    SectionIsSlot(v, now, next, was, sort, f, name, certKey, lo);
    SwapNames(v, now, next, was, sort, f, name, certKey);
    BelowLater(v, lo, next);
    LooksAlikeAtFirst(v, was);
    LooksAlikeAfter(v, WithoutSerial(v, was), now, SectionSwap(v, now, next, was, sort, f, name, certKey));
  }

  /** `SaveHost`, by what its three sections answer. */
  lemma SaveHostInSteps(v: Vault, next: Id, f: HostForm, certKey: CertKeys)
    ensures
      var was, name := ExistingHost(v, f.id), FormName(f);
      var b := WithoutSerial(v, was);
      var r1 := SaveHostSlot(v, b, next, was, SshS, f.ssh, name, certKey);
      SaveHost(v, next, f, certKey).Ok? <==>
        && CheckHostForm(v, f) == None && r1.Ok?
        && var s1 := SectionSwap(v, b, next, was, SshS, f.ssh, name, certKey);
           var r2 := SaveHostSlot(v, After(b, s1), s1.hi, was, TelnetS, f.telnet, name, certKey);
           && r2.Ok?
           && var s2 := SectionSwap(v, After(b, s1), s1.hi, was, TelnetS, f.telnet, name, certKey);
              && SaveHostSlot(v, After(After(b, s1), s2), s2.hi, was, WebDavS, WebDavSection(f.webdav), name,
                certKey).Ok?
              && (f.webdav.Some? ==> f.webdav.value.modeKnown && f.webdav.value.fingerprintOk)
  {
    hide SaveHostSlot, SavedHost, CheckHostForm;
  }

  /** Saving a host succeeds exactly when its form and its logins are in order. */
  lemma SaveHostSucceedsExactly(v: Vault, next: Id, f: HostForm, certKey: CertKeys)
    requires WellFormed(v) && IdsBelow(v, next)
    ensures SaveHost(v, next, f, certKey).Ok? <==> Savable(v, f, certKey)
  {
    hide *;
    var was, name := ExistingHost(v, f.id), FormName(f);
    var b := WithoutSerial(v, was);
    SavableIs(v, f, certKey);
    SaveHostInSteps(v, next, f, certKey);
    WellFormedIsClosed(v);
    HostRefs(v, was, f.id);
    OwnRows(b);
    LooksAlikeAtFirst(v, was);
    SlotSavesExactly(v, b, next, was, SshS, f.ssh, name, certKey);
    if SaveHostSlot(v, b, next, was, SshS, f.ssh, name, certKey).Ok? {
      SlotLooksAlike(v, b, next, was, SshS, f.ssh, name, certKey, next);
      var s1 := SectionSwap(v, b, next, was, SshS, f.ssh, name, certKey);
      SlotSavesExactly(v, After(b, s1), s1.hi, was, TelnetS, f.telnet, name, certKey);
      if SaveHostSlot(v, After(b, s1), s1.hi, was, TelnetS, f.telnet, name, certKey).Ok? {
        SlotLooksAlike(v, After(b, s1), s1.hi, was, TelnetS, f.telnet, name, certKey, next);
        var s2 := SectionSwap(v, After(b, s1), s1.hi, was, TelnetS, f.telnet, name, certKey);
        SlotSavesExactly(v, After(After(b, s1), s2), s2.hi, was, WebDavS, WebDavSection(f.webdav), name, certKey);
      }
    }
  }

  // ----- groups -----

  function EditedGroup(v: Vault, id: Option<Id>): Option<Group> { if id.Some? then WasGroup(v, id.value) else None }

  /** Row `o` is a group of that name and parent: a new one, or the one edited.
      What the editors do not show stays. */
  predicate GroupRow(v: Vault, w: Vault, o: Id, id: Option<Id>, name: string, parent: Option<Id>) {
    && o in w && w[o].GroupP?
    && var g, was := w[o].group, EditedGroup(v, id);
    && (if was.Some? then o == id.value else o !in v)
    && g.name == Trim(name) && g.parentId == parent
    && g.telnetConfigId == (if was.Some? then was.value.telnetConfigId else None)
    && g.sortOrder == (if was.Some? then was.value.sortOrder else 0)
    && g.externalId == (if was.Some? then was.value.externalId else None)
  }

  /** No other row changes, comes or goes. */
  ghost predicate OnlyRow(v: Vault, w: Vault, o: Id) {
    forall x :: x != o ==> (x in v <==> x in w) && (x in v ==> w[x] == v[x])
  }

  /** Renaming or moving a group changes its name and parent and nothing else at all. */
  lemma SavedGroupIsTheForm(v: Vault, next: Id, id: Option<Id>, name: string, parent: Option<Id>)
    requires IdsBelow(v, next) && SaveGroup(v, next, id, name, parent).Ok?
    ensures
      var r := SaveGroup(v, next, id, name, parent).value;
      && GroupRow(v, r.0, r.1, id, name, parent) && OnlyRow(v, r.0, r.1)
      && r.0[r.1].group.sshConfigId ==
           (if EditedGroup(v, id).Some? then EditedGroup(v, id).value.sshConfigId else None)
  {
    hide CheckParent, Trim;
  }

  /** The SSH defaults of a group: none when the form leaves nothing in them. */
  predicate DefaultsKept(v: Vault, w: Vault, ref: Option<Id>, now: Option<Id>, f: SectionForm, name: string,
      certKey: CertKeys)
  {
    var was := ConfigIn(v, ref, SshS);
    if (f.port == None || f.port == Some(0)) && f.settings(if was.Some? then RestOf(was.value) else "") == "" &&
       f.login.identityId == None && SaysNothingAtAll(v, InlineAt(v, ref), f.login, certKey)
    then Emptied(v, w, SshS, ref, now)
    else SectionKept(v, w, SshS, ref, now, Some(f), name, certKey)
  }

  lemma DefaultsSettle(v: Vault, next: Id, ref: Option<Id>, f: SectionForm, name: string, certKey: CertKeys, w: Vault)
    requires IdsBelow(v, next) && Points(v, ref, SshS)
    requires SaveGroupSlot(v, next, ConfigOf(v, ref, SshS), InlineOfConfig(v, ref), f, name, certKey).Ok?
    requires
      var e := SaveGroupSlot(v, next, ConfigOf(v, ref, SshS), InlineOfConfig(v, ref), f, name, certKey).value.0;
      Settles(v, e.puts, e.drops, w)
    ensures DefaultsKept(v, w, ref,
      SaveGroupSlot(v, next, ConfigOf(v, ref, SshS), InlineOfConfig(v, ref), f, name, certKey).value.1, f, name,
      certKey)
  {
    hide Typed, SaysNothingAtAll, LoginKept, Configured, SaveLogin, InlineAt, InlineOfConfig;
    var was, had := ConfigOf(v, ref, SshS), InlineOfConfig(v, ref);
    HadIs(v, ref);
    var (e, identity) := SaveLogin(v, next, had, f.login, name, certKey).value;
    LoginMisses(v, v, next, SshS, ref, f.login, name, certKey);
    ConfiguredIs(was, SshS, f, identity);
    DefaultsAreEmpty(was, f, identity);
    LoginSettles(v, v, v, next, had, f.login, name, certKey, w);
    LoginNamesNone(v, w, InlineAt(v, ref), identity, f.login, name, certKey);
  }

  /** No identity is named exactly by an empty login, and then the old one is gone. */
  lemma LoginNamesNone(v: Vault, w: Vault, had: Option<Id>, now: Option<Id>, c: Login, name: string, certKey: CertKeys)
    requires LoginKept(v, w, had, now, c, name, certKey)
    ensures now == None <==> c.identityId == None && SaysNothingAtAll(v, had, c, certKey)
    ensures now == None ==> Gone(w, had)
  {
    hide Typed, SaysNothingAtAll;
  }

  lemma DefaultsAreEmpty(was: Option<(Id, Payload)>, f: SectionForm, identity: Option<Id>)
    requires was.Some? ==> SortOf(was.value.1) == SshS
    ensures Configured(was, SshS, f.port, f.settings, identity) == SshConfigP(SshConfig(None, None, "")) <==>
      (f.port == None || f.port == Some(0)) && identity == None &&
      f.settings(if was.Some? then RestOf(was.value.1) else "") == ""
  {
  }

  /** A saved group form: its row, its SSH defaults, and nothing else. */
  ghost predicate GroupFormSaved(v: Vault, w: Vault, next: Id, o: Id, f: GroupForm, certKey: CertKeys) {
    && GroupRow(v, w, o, f.id, f.name, f.parentId)
    && var g, was := w[o].group, EditedGroup(v, f.id);
    && DefaultsKept(v, w, if was.Some? then was.value.sshConfigId else None, g.sshConfigId, f.ssh, g.name, certKey)
    && RestStands(v, w, next, o, {})
  }

  lemma FormRow(v: Vault, next: Id, f: GroupForm, certKey: CertKeys)
    requires IdsBelow(v, next) && SaveGroupForm(v, next, f, certKey).Ok? && GroupFormSlot(v, next, f, certKey).Ok?
    ensures
      var r := SaveGroupForm(v, next, f, certKey).value;
      && GroupRow(v, r.0, r.1, f.id, f.name, f.parentId)
      && r.0[r.1].group.sshConfigId == GroupFormSlot(v, next, f, certKey).value.1
      && (r.1 in v || next <= r.1)
  {
    GroupFormShape(v, next, f, certKey);
    GroupSlotForward(v, next, f, certKey);
    hide SaveGroupForm, GroupFormSlot, Trim, Apply;
  }

  lemma GroupSlotForward(v: Vault, next: Id, f: GroupForm, certKey: CertKeys)
    requires GroupFormSlot(v, next, f, certKey).Ok?
    ensures next <= GroupFormSlot(v, next, f, certKey).value.0.next
  {
    hide LoginKey, Trim, Configured;
  }

  lemma GroupSavedParts(v: Vault, next: Id, f: GroupForm, certKey: CertKeys, owner: Payload, s: seq<Swap>)
    requires SaveGroupForm(v, next, f, certKey).Ok?
    requires GroupSaved(v, next, f.id, f.parentId, SaveGroupForm(v, next, f, certKey).value, owner, s)
    ensures
      var r := SaveGroupForm(v, next, f, certKey).value;
      0 < SLOTS && |s| == SLOTS && ClientSave(v, r.1, owner, s) && r.0 == Saved(v, r.1, owner, s)
  {
    hide SaveGroupForm, ClientSave, ExistingGroup;
  }

  lemma FormSlotSettles(v: Vault, next: Id, f: GroupForm, certKey: CertKeys, s: Swap, w: Vault)
    requires WellFormed(v) && IdsBelow(v, next) && GroupFormSlot(v, next, f, certKey).Ok?
    requires s == SlotOf(SshS, GroupSshId(ExistingGroup(v, f.id)), GroupFormSlot(v, next, f, certKey).value, next)
    requires Settles(v, s.puts, s.drops, w)
    ensures s.lo == next
    ensures
      var was := EditedGroup(v, f.id);
      DefaultsKept(v, w, if was.Some? then was.value.sshConfigId else None, GroupFormSlot(v, next, f, certKey).value.1,
        f.ssh, Trim(f.name), certKey)
  {
    hide WellFormed, SaveGroupSlot, DefaultsKept, Settles, Trim;
    WellFormedIsClosed(v);
    GroupRefs(v, ExistingGroup(v, f.id), f.id);
    NoRefPoints(v);
    DefaultsSettle(v, next, GroupSshId(ExistingGroup(v, f.id)), f.ssh, Trim(f.name), certKey, w);
  }

  lemma RowNamed(v: Vault, w: Vault, o: Id, f: GroupForm)
    requires GroupRow(v, w, o, f.id, f.name, f.parentId)
    ensures w[o].group.name == Trim(f.name)
  {
  }

  /** A successful save of a group form leaves exactly what the form says: the
      group's row, its SSH defaults with their port and login, and all other
      rows as they were. */
  lemma SaveStoresTheGroupForm(v: Vault, next: Id, f: GroupForm, certKey: CertKeys)
    requires WellFormed(v) && IdsBelow(v, next) && SaveGroupForm(v, next, f, certKey).Ok?
    ensures
      var r := SaveGroupForm(v, next, f, certKey).value;
      GroupFormSaved(v, r.0, next, r.1, f, certKey)
  {
    hide *;
    var r := SaveGroupForm(v, next, f, certKey).value;
    var owner, s := SaveGroupFormTakenApart(v, next, f, certKey);
    GroupSavedParts(v, next, f, certKey, owner, s);
    FormRow(v, next, f, certKey);
    RowNamed(v, r.0, r.1, f);
    SaveMakes(v, r.1, owner, s, r.0);
    SwapSettles(v, AssemblyOf(r.1, Some(owner), s, map[]), r.0, 0);
    FormSlotSettles(v, next, f, certKey, s[0], r.0);
    SaveRestStands(v, next, r.1, owner, s, r.0);
    FormIsSaved(v, r.0, next, r.1, f, certKey);
  }

  lemma FormIsSaved(v: Vault, w: Vault, next: Id, o: Id, f: GroupForm, certKey: CertKeys)
    requires GroupRow(v, w, o, f.id, f.name, f.parentId) && RestStands(v, w, next, o, {})
    requires
      var g, was := w[o].group, EditedGroup(v, f.id);
      DefaultsKept(v, w, if was.Some? then was.value.sshConfigId else None, g.sshConfigId, f.ssh, g.name, certKey)
    ensures GroupFormSaved(v, w, next, o, f, certKey)
  {
  }

  /** A parent the editors accept: a group other than this one that is not found
      below it within the ancestors looked at. */
  predicate ParentAccepted(v: Vault, id: Option<Id>, parent: Option<Id>) {
    parent.Some? ==>
      && parent != id && parent.value in v && v[parent.value].GroupP?
      && (id.Some? ==> id.value !in F.Walk(GroupTree(v), parent.value, [], CLIENT_LIMIT))
  }

  lemma SaveGroupSucceedsExactly(v: Vault, next: Id, id: Option<Id>, name: string, parent: Option<Id>)
    ensures SaveGroup(v, next, id, name, parent).Ok? <==>
      Trim(name) != "" && ParentAccepted(v, id, parent) && (id.Some? ==> EditedGroup(v, id).Some?)
  {
    hide Trim;
  }

  lemma SaveGroupFormSucceedsExactly(v: Vault, next: Id, f: GroupForm, certKey: CertKeys)
    ensures SaveGroupForm(v, next, f, certKey).Ok? <==>
      && Trim(f.name) != "" && ParentAccepted(v, f.id, f.parentId) && f.linksOk
      && var was := EditedGroup(v, f.id);
         LoginAccepted(v, InlineAt(v, if was.Some? then was.value.sshConfigId else None), f.ssh.login, certKey)
  {
    var ref := GroupSshId(ExistingGroup(v, f.id));
    hide Trim, SaveLogin, LoginAccepted, LooksAlike, InlineAt, InlineOfConfig, Configured;
    HadIs(v, ref);
    LooksAlikeItself(v);
    LoginSavesExactly(v, v, next, InlineOfConfig(v, ref), f.ssh.login, Trim(f.name), certKey);
  }

  lemma LooksAlikeItself(v: Vault)
    ensures LooksAlike(v, v)
  {
  }
}
