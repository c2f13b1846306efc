/** What the client's host and group editors write: saving, deleting and
    duplicating rows of one vault, step by step as the program does. */
module HostForms {
  import opened Wrappers
  import opened Schema
  import opened VaultGraph
  import opened BridgePlans
  import opened Text
  import F = Forest

  /** A login as edited in a form. `others` resolves the stored TOTP secret,
      token and client certificate, or refuses the form. */
  datatype Login = Login(
    identityId: Option<Id>, username: string, password: Option<string>, keyId: Option<Id>, certificate: Option<Id>,
    sshId: bool, sshIdKeyType: Option<string>, others: Option<string> -> Option<string>)

  /** A config section; `settings` turns the stored fields into the saved ones. */
  datatype SectionForm = SectionForm(port: Option<nat>, login: Login, settings: string -> string)

  /** The WebDAV section with what its validators said. */
  datatype WebDavForm = WebDavForm(login: Login, section: string, modeKnown: bool, fingerprintOk: bool)

  datatype HostForm = HostForm(
    id: Option<Id>, name: string, address: string, groupId: Option<Id>, ssh: Option<SectionForm>,
      telnet: Option<SectionForm>,
    webdav: Option<WebDavForm>, webdavOk: bool, tagIds: seq<Id>, notes: string, osName: Option<string>,
      extras: string -> string)

  /** `linksOk`: the chain and proxy it names are in the vault. */
  datatype GroupForm = GroupForm(
    id: Option<Id>, name: string, parentId: Option<Id>, linksOk: bool, ssh: SectionForm)

  datatype FormError = Missing | NotSelectable | OtherKey | Refused | Invalid | IntoItself

  /** How a certificate row names the key it was issued for. */
  type CertKeys = string -> Option<Id>

  const CERTIFICATE := "ssh_certificate"

  function NonZero(port: Option<nat>): Option<nat> { if port == Some(0) then None else port }

  // ----- logins -----

  /** The key a login names: a certificate brings its own. */
  function LoginKey(v: Vault, c: Login, certKey: CertKeys): Result<Option<Id>, FormError> {
    match c.certificate
    case None => Ok(c.keyId)
    case Some(cid) =>
      if cid !in v || !v[cid].OtherP? || v[cid].otherKind != CERTIFICATE then Err(Missing)
      else
        var issued := certKey(v[cid].body);
        if issued.Some? && c.keyId.Some? && issued != c.keyId then Err(OtherKey)
        else Ok(if c.keyId.None? then issued else c.keyId)
  }

  /** A keychain identity is referred to; any other login becomes the config's own, or none. */
  function SaveLogin(v: Vault, next: Id, inline: Option<(Id, Identity)>, c: Login, name: string, certKey: CertKeys):
    Result<(Edit, Option<Id>), FormError>
  {
    var had := if inline.Some? then {inline.value.0} else {};
    if c.identityId.Some? then
      var i := c.identityId.value;
      if i !in v || !v[i].IdentityP? then Err(Missing)
      else if !v[i].identity.isVisible then Err(NotSelectable)
      else Ok((Edit(map[], had, next), Some(i)))
    else
      match LoginKey(v, c, certKey)
      case Err(e) => Err(e)
      case Ok(key) =>
        if key.Some? && (key.value !in v || !v[key.value].SshKeyP?) then Err(Missing)
        else
          var password := if c.password.Some? then NonEmpty(c.password)
            else if inline.Some? then inline.value.1.password else None;
          match c.others(if inline.Some? then Some(inline.value.1.extras) else None)
          case None => Err(Refused)
          case Some(others) =>
            if Trim(c.username) == "" && password.None? && key.None? && !c.sshId && others == ""
            then Ok((Edit(map[], had, next), None))
            else
              var id := if inline.Some? then inline.value.0 else next;
              var ident := Identity(name, Trim(c.username), password, key, if key.Some? then c.certificate else None,
                                    false, c.sshId, if c.sshId then c.sshIdKeyType else None, others);
              Ok((Edit(map[id := IdentityP(ident)], {}, if inline.Some? then next else next + 1), Some(id)))
  }

  // ----- config sections -----

  /** The inline identity behind a config, with its payload. */
  function InlineOfConfig(v: Vault, c: Option<Id>): Option<(Id, Identity)> {
    if c.Some? && c.value in v && IdentityRef(v[c.value]).Some? &&
       IdentityRef(v[c.value]).value in v && IsInline(v[IdentityRef(v[c.value]).value])
    then Some((IdentityRef(v[c.value]).value, v[IdentityRef(v[c.value]).value].identity)) else None
  }

  /** The config a slot refers to, if it is there and of the slot's kind. */
  function ConfigOf(v: Vault, c: Option<Id>, sort: Sort): Option<(Id, Payload)> {
    if c.Some? && c.value in v && SortOf(v[c.value]) == sort then Some((c.value, v[c.value])) else None
  }

  /** What a form makes of a config: kept fields, new port and settings, the login planned for it. */
  function Configured(was: Option<(Id, Payload)>, sort: Sort, port: Option<nat>, settings: string -> string,
      identity: Option<Id>): Payload
  {
    if sort == SshS then
      var cfg := if was.Some? && was.value.1.SshConfigP? then was.value.1.ssh else SshConfig(None, None, "");
      SshConfigP(cfg.(port := NonZero(port), identityId := identity, extras := settings(cfg.extras)))
    else if sort == TelnetS then
      var cfg := if was.Some? && was.value.1.TelnetConfigP? then was.value.1.telnet else TelnetConfig(None, None, "");
      TelnetConfigP(cfg.(port := NonZero(port), identityId := identity, extras := settings(cfg.extras)))
    else WebDavConfigP(WebDavConfig(identity, settings("")))
  }

  /** Drop a slot: its inline identity and its config. */
  function DropSlot(was: Option<(Id, Payload)>, inline: Option<(Id, Identity)>): set<Id> {
    (if inline.Some? then {inline.value.0} else {}) + if was.Some? then {was.value.0} else {}
  }

  /** Save one section. What it had is what the call found when it began;
      lookups of other rows see the rows as they are by now. */
  function SaveSlot(
    now: Vault, next: Id, sort: Sort, was: Option<(Id, Payload)>, inline: Option<(Id, Identity)>,
      f: Option<SectionForm>,
    name: string, certKey: CertKeys): Result<(Edit, Option<Id>), FormError>
  {
    match f
    case None => Ok((Edit(map[], DropSlot(was, inline), next), None))
    case Some(sf) =>
      match SaveLogin(now, next, inline, sf.login, name, certKey)
      case Err(e) => Err(e)
      case Ok((e, identity)) =>
        var id := if was.Some? then was.value.0 else e.next;
        var cfg := Configured(was, sort, sf.port, sf.settings, identity);
        Ok((e.Put(id, cfg).(next := if was.Some? then e.next else e.next + 1), Some(id)))
  }

  /** A WebDAV section as a plain section: its stored fields are replaced whole. */
  function WebDavSection(f: Option<WebDavForm>): Option<SectionForm> {
    if f.Some? then Some(SectionForm(None, f.value.login, _ => f.value.section)) else None
  }

  // ----- hosts -----

  /** A leftover serial config goes first. */
  function WithoutSerial(v: Vault, h: Option<Host>): Vault {
    if h.Some? && h.value.serialConfigId.Some? && h.value.serialConfigId.value in v &&
      v[h.value.serialConfigId.value].SerialConfigP?
    then v - {h.value.serialConfigId.value} else v
  }

  function ExistingHost(v: Vault, id: Option<Id>): Option<Host> {
    if id.Some? && id.value in v && v[id.value].HostP? then Some(v[id.value].host) else None
  }

  function HostSlot(h: Option<Host>, sort: Sort): Option<Id> {
    match h
    case None => None
    case Some(x) => if sort == SshS then x.sshConfigId else if sort == TelnetS then x.telnetConfigId
      else x.webdavConfigId
  }

  function SavedHost(was: Option<Host>, f: HostForm, ssh: Option<Id>, telnet: Option<Id>, webdav: Option<Id>): Host {
    var h := if was.Some? then was.value else NewHost();
    h.(name := if Trim(f.name) == "" then Trim(f.address) else Trim(f.name), address := Trim(f.address),
      groupId := f.groupId,
       sshConfigId := ssh, telnetConfigId := telnet, webdavConfigId := webdav, serialConfigId := None,
       tagIds := f.tagIds, notes := f.notes, osName := if was.Some? then was.value.osName else NonEmpty(f.osName),
       extras := f.extras(h.extras))
  }

  function FormName(f: HostForm): string { if Trim(f.name) == "" then Trim(f.address) else Trim(f.name) }

  /** What must hold before anything is written. */
  function CheckHostForm(v: Vault, f: HostForm): Option<FormError> {
    if f.ssh.None? && f.telnet.None? && f.webdav.None? then Some(Invalid)
    else if f.webdav.Some? && !f.webdavOk then Some(Invalid)
    else if Trim(f.address) == "" then Some(Invalid)
    else if f.groupId.Some? && (f.groupId.value !in v || !v[f.groupId.value].GroupP?) then Some(Missing)
    else None
  }

  /** The row written last, and the id it has. */
  function PutOwner(v: Vault, next: Id, id: Option<Id>, p: Payload): (Vault, Id, Id) {
    if id.Some? then (v[id.value := p], id.value, next) else (v[next := p], next, next + 1)
  }

  /** Save one of the host's three sections, found in `v`, on the rows as they are now. */
  function SaveHostSlot(v: Vault, now: Vault, next: Id, was: Option<Host>, sort: Sort, f: Option<SectionForm>,
      name: string, certKey: CertKeys):
    Result<(Edit, Option<Id>), FormError>
  {
    SaveSlot(now, next, sort, ConfigOf(v, HostSlot(was, sort), sort), InlineOfConfig(v, HostSlot(was, sort)), f, name,
      certKey)
  }

  /** The rows after a save, the host's id, and the next random id. */
  function SaveHost(v: Vault, next: Id, f: HostForm, certKey: CertKeys): Result<(Vault, Id, Id), FormError> {
    if CheckHostForm(v, f).Some? then Err(CheckHostForm(v, f).value)
    else
      var was, name := ExistingHost(v, f.id), FormName(f);
      var v1 := WithoutSerial(v, was);
      match SaveHostSlot(v, v1, next, was, SshS, f.ssh, name, certKey)
      case Err(e) => Err(e)
      case Ok((e1, ssh)) =>
        var v2 := Apply(v1, e1);
        match SaveHostSlot(v, v2, e1.next, was, TelnetS, f.telnet, name, certKey)
        case Err(e) => Err(e)
        case Ok((e2, telnet)) =>
          var v3 := Apply(v2, e2);
          if f.webdav.Some? && !f.webdav.value.modeKnown then Err(Invalid)
          else
            match SaveHostSlot(v, v3, e2.next, was, WebDavS, WebDavSection(f.webdav), name, certKey)
            case Err(e) => Err(e)
            case Ok((e3, webdav)) =>
              if f.webdav.Some? && !f.webdav.value.fingerprintOk then Err(Invalid)
              else
                Ok(PutOwner(Apply(v3, e3), e3.next, if was.Some? then f.id else None,
                            HostP(SavedHost(was, f, ssh, telnet, webdav))))
  }

  /** The rows a deleted host takes along: configs, inline identities, a serial config, snippet bindings. */
  function HostDrops(v: Vault, id: Id, bound: Payload -> Option<Id>): set<Id>
    requires id in v && v[id].HostP?
  {
    var h := Some(v[id].host);
    DropSlot(ConfigOf(v, HostSlot(h, SshS), SshS), InlineOfConfig(v, HostSlot(h, SshS))) +
    DropSlot(ConfigOf(v, HostSlot(h, TelnetS), TelnetS), InlineOfConfig(v, HostSlot(h, TelnetS))) +
    DropSlot(ConfigOf(v, HostSlot(h, WebDavS), WebDavS), InlineOfConfig(v, HostSlot(h, WebDavS))) +
    Loose(v, id, bound) + {id}
  }

  /** Rows nothing refers to: the serial config and the bindings of snippets to the host. */
  function Loose(v: Vault, id: Id, bound: Payload -> Option<Id>): set<Id>
    requires id in v && v[id].HostP?
  {
    (if v[id].host.serialConfigId.Some? && v[id].host.serialConfigId.value in v &&
      v[v[id].host.serialConfigId.value].SerialConfigP?
     then {v[id].host.serialConfigId.value} else {}) +
    (set b | b in v && v[b].OtherP? && bound(v[b]) == Some(id))
  }

  function DeleteHost(v: Vault, id: Id, bound: Payload -> Option<Id>): Vault {
    if id in v && v[id].HostP? then v - HostDrops(v, id, bound) else v
  }

  // ----- groups -----

  const CLIENT_LIMIT: nat := 65

  function ExistingGroup(v: Vault, id: Option<Id>): Option<Group> {
    if id.Some? && id.value in v && v[id.value].GroupP? then Some(v[id.value].group) else None
  }

  /** A group's SSH defaults are dropped when the form leaves nothing in them. */
  function SaveGroupSlot(v: Vault, next: Id, was: Option<(Id, Payload)>, inline: Option<(Id, Identity)>, f: SectionForm,
                         name: string, certKey: CertKeys): Result<(Edit, Option<Id>), FormError>
  {
    match SaveLogin(v, next, inline, f.login, name, certKey)
    case Err(e) => Err(e)
    case Ok((e, identity)) =>
      var cfg := Configured(was, SshS, f.port, f.settings, identity);
      if cfg == SshConfigP(SshConfig(None, None, "")) then
        Ok((if was.Some? then e.Drop(was.value.0) else e, None))
      else
        var id := if was.Some? then was.value.0 else e.next;
        Ok((e.Put(id, cfg).(next := if was.Some? then e.next else e.next + 1), Some(id)))
  }

  /** The guard of every re-parenting: the parent exists, and walking up to 65
      groups from it does not meet the group. */
  function CheckParent(v: Vault, id: Option<Id>, parent: Option<Id>): Option<FormError> {
    if parent.None? then None
    else if parent == id then Some(Invalid)
    else if parent.value !in v || !v[parent.value].GroupP? then Some(Missing)
    else if id.Some? && id.value in F.Walk(GroupTree(v), parent.value, [], CLIENT_LIMIT) then Some(IntoItself)
    else None
  }

  /** A group's name and parent change, nothing else of it. */
  function SaveGroup(v: Vault, next: Id, id: Option<Id>, name: string, parent: Option<Id>):
      Result<(Vault, Id, Id), FormError>
  {
    if Trim(name) == "" then Err(Invalid)
    else if CheckParent(v, id, parent).Some? then Err(CheckParent(v, id, parent).value)
    else if id.Some? && ExistingGroup(v, id).None? then Err(Missing)
    else
      var g := if id.Some? then ExistingGroup(v, id).value else NewGroup();
      Ok(PutOwner(v, next, id, GroupP(g.(name := Trim(name), parentId := parent))))
  }

  function GroupSshId(g: Option<Group>): Option<Id> { if g.Some? then g.value.sshConfigId else None }

  /** A group is saved together with its own SSH config and login. */
  function SaveGroupForm(v: Vault, next: Id, f: GroupForm, certKey: CertKeys): Result<(Vault, Id, Id), FormError> {
    if Trim(f.name) == "" then Err(Invalid)
    else if CheckParent(v, f.id, f.parentId).Some? then Err(CheckParent(v, f.id, f.parentId).value)
    else if !f.linksOk then Err(Missing)
    else
      var was := ExistingGroup(v, f.id);
      match SaveGroupSlot(v, next, ConfigOf(v, GroupSshId(was), SshS), InlineOfConfig(v, GroupSshId(was)), f.ssh,
        Trim(f.name), certKey)
      case Err(e) => Err(e)
      case Ok((e, ssh)) =>
        var g := if was.Some? then was.value else NewGroup();
        Ok(PutOwner(Apply(v, e), e.next, if was.Some? then f.id else None,
                    GroupP(g.(name := Trim(f.name), parentId := f.parentId, sshConfigId := ssh))))
  }

  /** The group goes with its SSH defaults; hosts and sub-groups move up. Its
      Telnet defaults are not looked at. */
  function GroupDrops(v: Vault, id: Id): set<Id>
    requires id in v && v[id].GroupP?
  {
    DropSlot(ConfigOf(v, v[id].group.sshConfigId, SshS), InlineOfConfig(v, v[id].group.sshConfigId)) + {id}
  }

  function MembersMoved(v: Vault, id: Id): Vault
    requires id in v && v[id].GroupP?
  {
    map x | x in v :: Lifted(v[x], id, v[id].group.parentId)
  }

  function DeleteGroup(v: Vault, id: Id): Vault {
    if id in v && v[id].GroupP? then MembersMoved(v, id) - GroupDrops(v, id) else v
  }

  // ----- duplicating a host -----

  /** The login of a stored config as a form for its copy: a keychain identity
      stays a reference, an inline one is copied without its other secrets. */
  function FlatLogin(v: Vault, identityId: Option<Id>, ssh: bool): Login {
    if identityId.None? || identityId.value !in v || !v[identityId.value].IdentityP?
    then Login(None, "", None, None, None, false, None, _ => Some(""))
    else
      var i := v[identityId.value].identity;
      if i.isVisible then Login(identityId, "", None, None, None, false, None, _ => Some(""))
      else if ssh then Login(None, i.username, i.password, i.sshKeyId, i.sshCertificateId, i.sshId, i.sshIdKeyType,
        _ => Some(""))
      else Login(None, i.username, i.password, None, None, false, None, _ => Some(""))
  }

  function SectionCopy(v: Vault, ref: Option<Id>, sort: Sort): Option<SectionForm> {
    match ConfigOf(v, ref, sort)
    case Some((_, SshConfigP(c))) => Some(SectionForm(c.port, FlatLogin(v, c.identityId, true), _ => c.extras))
    case Some((_, TelnetConfigP(c))) => Some(SectionForm(c.port, FlatLogin(v, c.identityId, false), _ => c.extras))
    case _ => None
  }

  /** A WebDAV login in token mode leaves its token, and with it the login, behind. */
  function WebDavCopy(v: Vault, ref: Option<Id>, tokenMode: bool): Option<WebDavForm> {
    match ConfigOf(v, ref, WebDavS)
    case Some((_, WebDavConfigP(c))) =>
      var login := FlatLogin(v, c.identityId, false);
      Some(WebDavForm(if tokenMode then login.(username := "", password := Some("")) else login, c.extras, true, true))
    case _ => None
  }

  /** The form that copies host `id` beside itself. A host without any section edits as SSH. */
  function CopyForm(v: Vault, id: Id, name: string, groupId: Option<Id>, tokenMode: bool, sectionOk: bool): HostForm
    requires id in v && v[id].HostP?
  {
    var h := v[id].host;
    var ssh, telnet, webdav :=
      SectionCopy(v, h.sshConfigId, SshS), SectionCopy(v, h.telnetConfigId, TelnetS),
        WebDavCopy(v, h.webdavConfigId, tokenMode);
    HostForm(None, name, h.address, groupId,
             if ssh.None? && telnet.None? &&
               webdav.None? then Some(SectionForm(None, FlatLogin(v, None, true), s => s)) else ssh,
             telnet, webdav, sectionOk, h.tagIds, h.notes, h.osName, _ => h.extras)
  }

  /** The stored SSH settings travel raw; only the login is the copy's own. */
  function RawSsh(v: Vault, w: Vault, src: Id, copy: Id): Vault
    requires src in v && v[src].HostP?
  {
    var from := ConfigOf(v, v[src].host.sshConfigId, SshS);
    if from.Some? && from.value.1.SshConfigP? && copy in w && w[copy].HostP? then
      var to := ConfigOf(w, w[copy].host.sshConfigId, SshS);
      if to.Some? && to.value.1.SshConfigP?
      then w[to.value.0 := SshConfigP(from.value.1.ssh.(identityId := to.value.1.ssh.identityId))] else w
    else w
  }

  function CopyHost(v: Vault, next: Id, id: Id, name: Option<string>, groupId: Option<Id>, tokenMode: bool,
      sectionOk: bool, certKey: CertKeys):
    Result<(Vault, Id, Id), FormError>
  {
    if id !in v || !v[id].HostP? then Err(Missing)
    else
      var title := if name.Some? then name.value else v[id].host.name;
      match SaveHost(v, next, CopyForm(v, id, title, groupId, tokenMode, sectionOk), certKey)
      case Err(e) => Err(e)
      case Ok((w, copy, next')) => Ok((RawSsh(v, w, id, copy), copy, next'))
  }

  function DuplicateHost(v: Vault, next: Id, id: Id, tokenMode: bool, sectionOk: bool, certKey: CertKeys):
      Result<(Vault, Id, Id), FormError>
  {
    if id !in v || !v[id].HostP? then Err(Missing)
    else CopyHost(v, next, id, Some(v[id].host.name + " copy"), v[id].host.groupId, tokenMode, sectionOk, certKey)
  }
}
