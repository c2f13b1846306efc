/** What a new config keeps of the form it was saved from, and what a copied
    config keeps of the original's settings and login. */
module CopiedLogins {
  import opened Wrappers
  import opened Schema
  import opened VaultGraph
  import opened BridgePlans
  import opened HostForms
  import opened Text

  /** Every row of `v` is still there, unchanged. */
  ghost predicate Kept(v: Vault, w: Vault) { forall x :: x in v ==> x in w && w[x] == v[x] }

  // ----- new configs -----

  /** The credentials an identity stands for: none without one. */
  datatype Creds = Creds(username: string, password: Option<string>, key: Option<Id>, sshId: bool)

  predicate IsIdentity(v: Vault, i: Option<Id>) { i.Some? && i.value in v && v[i.value].IdentityP? }

  predicate InKeychain(v: Vault, i: Option<Id>) { IsIdentity(v, i) && v[i.value].identity.isVisible }

  function CredsAt(v: Vault, i: Option<Id>): Creds {
    if IsIdentity(v, i) then
      var x := v[i.value].identity; Creds(Trim(x.username), NonEmpty(x.password), x.sshKeyId, x.sshId)
    else Creds("", None, None, false)
  }

  /** `c` was saved as identity `i`: a reference into the keychain, or its own
      credentials. A certificate without a key brings the key it was issued for. */
  predicate LoginSaved(w: Vault, i: Option<Id>, c: Login) {
    && (i.Some? ==> IsIdentity(w, i))
    && if c.identityId.Some? then i == c.identityId && InKeychain(w, i)
       else
         var got := CredsAt(w, i);
         && !InKeychain(w, i) && got.username == Trim(c.username) && got.password == NonEmpty(c.password)
         && got.sshId == c.sshId && (c.certificate.None? || c.keyId.Some? ==> got.key == c.keyId)
  }

  lemma LoginIsSaved(now: Vault, next: Id, c: Login, name: string, certKey: CertKeys)
    requires SaveLogin(now, next, None, c, name, certKey).Ok?
    ensures
      var (e, i) := SaveLogin(now, next, None, c, name, certKey).value;
      LoginSaved(Apply(now, e), i, c) && e.drops == {} && next <= e.next && forall x :: x in e.puts ==> x < e.next
  {
    TrimTwice(c.username);
    hide Trim;
  }

  /** A section was saved as a new config of its own. */
  predicate SectionSaved(w: Vault, ref: Option<Id>, sort: Sort, f: SectionForm) {
    && ref.Some? && ref.value in w
    && w[ref.value] == Configured(None, sort, f.port, f.settings, IdentityRef(w[ref.value]))
    && LoginSaved(w, IdentityRef(w[ref.value]), f.login)
  }

  lemma LoginStaysPut(w: Vault, w2: Vault, i: Option<Id>, c: Login)
    requires LoginSaved(w, i, c) && (i.Some? ==> i.value in w2 && w2[i.value] == w[i.value])
    ensures LoginSaved(w2, i, c)
  {
    hide Trim;
  }

  lemma SectionIsSaved(now: Vault, next: Id, sort: Sort, f: SectionForm, name: string, certKey: CertKeys)
    requires SaveSlot(now, next, sort, None, None, Some(f), name, certKey).Ok? && sort in {SshS, TelnetS, WebDavS}
    requires forall x :: x in now ==> x < next
    ensures
      var (e, ref) := SaveSlot(now, next, sort, None, None, Some(f), name, certKey).value;
      SectionSaved(Apply(now, e), ref, sort, f)
  {
    LoginIsSaved(now, next, f.login, name, certKey);
    var (e, i) := SaveLogin(now, next, None, f.login, name, certKey).value;
    var cfg := Configured(None, sort, f.port, f.settings, i);
    assert IdentityRef(cfg) == i;
    hide SaveLogin, Configured;
    var r := SaveSlot(now, next, sort, None, None, Some(f), name, certKey).value;
    assert r.0.puts == e.puts[e.next := cfg] && r.0.drops == {} && r.1 == Some(e.next);
    LoginAside(now, e, i, f.login, cfg);
  }

  /** The config put around a new login leaves the login alone. */
  lemma LoginAside(now: Vault, e: Edit, i: Option<Id>, c: Login, cfg: Payload)
    requires LoginSaved(Apply(now, e), i, c) && e.drops == {} && forall x :: x in e.puts ==> x < e.next
    requires i.Some? ==> i.value != e.next
    ensures LoginSaved(Apply(now, Edit(e.puts[e.next := cfg], {}, e.next + 1)), i, c)
  {
    var w := Apply(now, e);
    LoginStaysPut(w, Apply(now, Edit(e.puts[e.next := cfg], {}, e.next + 1)), i, c);
  }

  lemma SectionStays(w: Vault, w2: Vault, ref: Option<Id>, sort: Sort, f: SectionForm)
    requires SectionSaved(w, ref, sort, f) && Kept(w, w2)
    ensures SectionSaved(w2, ref, sort, f)
  {
    hide LoginSaved, Configured;
    assert w2[ref.value] == w[ref.value];
    var i := IdentityRef(w[ref.value]);
    SavedIsThere(w, i, f.login);
    LoginStaysPut(w, w2, i, f.login);
  }

  lemma SavedIsThere(w: Vault, i: Option<Id>, c: Login)
    requires LoginSaved(w, i, c)
    ensures i.Some? ==> i.value in w
  {
    hide Trim;
  }

  /** A group's SSH settings: those of its config, or none. */
  function SshAt(v: Vault, ref: Option<Id>): SshConfig {
    if ref.Some? && ref.value in v && v[ref.value].SshConfigP? then v[ref.value].ssh else SshConfig(None, None, "")
  }

  predicate IsSsh(v: Vault, ref: Option<Id>) { ref.Some? && ref.value in v && v[ref.value].SshConfigP? }

  /** SSH defaults were saved: as a config of their own, or not at all when there is nothing in them. */
  predicate DefaultsSaved(w: Vault, ref: Option<Id>, f: SectionForm) {
    && (ref.Some? ==> IsSsh(w, ref))
    && SshAt(w, ref).port == NonZero(f.port) && SshAt(w, ref).extras == f.settings("")
    && LoginSaved(w, SshAt(w, ref).identityId, f.login)
  }

  lemma DefaultsAreSaved(now: Vault, next: Id, f: SectionForm, name: string, certKey: CertKeys)
    requires SaveGroupSlot(now, next, None, None, f, name, certKey).Ok? && forall x :: x in now ==> x < next
    ensures
      var (e, ref) := SaveGroupSlot(now, next, None, None, f, name, certKey).value;
      && DefaultsSaved(Apply(now, e), ref, f)
      && (ref.Some? ==> next <= ref.value < e.next)
  {
    var (e, i) := SaveLogin(now, next, None, f.login, name, certKey).value;
    var c := SshConfig(NonZero(f.port), i, f.settings(""));
    assert Configured(None, SshS, f.port, f.settings, i) == SshConfigP(c);
    LoginIsSaved(now, next, f.login, name, certKey);
    hide SaveLogin, LoginSaved, Configured;
    SavedIsThere(Apply(now, e), i, f.login);
    LoginAside(now, e, i, f.login, SshConfigP(c));
    var r := SaveGroupSlot(now, next, None, None, f, name, certKey).value;
    if c == SshConfig(None, None, "") {
      assert r == (e, None);
    } else {
      assert r == (Edit(e.puts[e.next := SshConfigP(c)], {}, e.next + 1), Some(e.next));
      hide SaveGroupSlot;
      ConfigIsThere(now, e, c);
    }
  }

  lemma ConfigIsThere(now: Vault, e: Edit, c: SshConfig)
    ensures SshAt(Apply(now, Edit(e.puts[e.next := SshConfigP(c)], {}, e.next + 1)), Some(e.next)) == c
    ensures IsSsh(Apply(now, Edit(e.puts[e.next := SshConfigP(c)], {}, e.next + 1)), Some(e.next))
  {
  }

  lemma DefaultsStay(w: Vault, w2: Vault, ref: Option<Id>, f: SectionForm)
    requires DefaultsSaved(w, ref, f) && Kept(w, w2)
    ensures DefaultsSaved(w2, ref, f)
  {
    hide LoginSaved;
    var i := SshAt(w, ref).identityId;
    SavedIsThere(w, i, f.login);
    LoginStaysPut(w, w2, i, f.login);
  }

  // ----- copies -----

  /** Identity `j` of a copy against identity `i` of the original: the same
      keychain identity, or credentials of its own that read alike. Only SSH
      copies a key, and a certificate's key stands in for a missing one. */
  predicate LoginTwin(v: Vault, i: Option<Id>, w: Vault, j: Option<Id>, ssh: bool) {
    && (j.Some? ==> IsIdentity(w, j))
    && if InKeychain(v, i) then j == i
       else if i.None? || IsIdentity(v, i) then
         var was, now := CredsAt(v, i), CredsAt(w, j);
         && !InKeychain(w, j) && now.username == was.username && now.password == was.password
         && now.sshId == (ssh && was.sshId)
         && (if !ssh then now.key.None?
             else i.None? || v[i.value].identity.sshCertificateId.None? || was.key.Some? ==> now.key == was.key)
       else true
  }

  lemma FlatTwin(v: Vault, i: Option<Id>, w: Vault, j: Option<Id>, ssh: bool)
    requires Kept(v, w) && LoginSaved(w, j, FlatLogin(v, i, ssh))
    ensures LoginTwin(v, i, w, j, ssh)
  {
    EmptyTrims();
    hide Trim;
  }

  /** A WebDAV login in token mode is copied without its token, so without anything but a reference. */
  predicate TokenTwin(v: Vault, i: Option<Id>, w: Vault, j: Option<Id>) {
    && (j.Some? ==> IsIdentity(w, j))
    && if InKeychain(v, i) then j == i
       else i.None? || IsIdentity(v, i) ==> CredsAt(w, j) == Creds("", None, None, false)
  }

  lemma FlatTokenTwin(v: Vault, i: Option<Id>, w: Vault, j: Option<Id>)
    requires Kept(v, w) && LoginSaved(w, j, FlatLogin(v, i, false).(username := "", password := Some("")))
    ensures TokenTwin(v, i, w, j)
  {
    EmptyTrims();
    hide Trim;
  }

  lemma TwinsStay(v: Vault, i: Option<Id>, w: Vault, j: Option<Id>, ssh: bool, w2: Vault)
    requires j.Some? && j.value in w ==> j.value in w2 && w2[j.value] == w[j.value]
    ensures LoginTwin(v, i, w, j, ssh) ==> LoginTwin(v, i, w2, j, ssh)
    ensures TokenTwin(v, i, w, j) ==> TokenTwin(v, i, w2, j)
  {
    hide Trim;
  }

  /** What twins an identity of `w` that was there in `v` twins it in `v`. */
  lemma TwinsBack(v: Vault, i: Option<Id>, w: Vault, w2: Vault, j: Option<Id>, ssh: bool)
    requires Kept(v, w)
    ensures LoginTwin(w, i, w2, j, ssh) ==> LoginTwin(v, i, w2, j, ssh)
    ensures TokenTwin(w, i, w2, j) ==> TokenTwin(v, i, w2, j)
  {
    hide Trim;
  }
}
