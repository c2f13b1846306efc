/** Plaintext entity payloads of a vault. Fields that no modelled operation
    reads or writes travel together in `extras`. */
module Schema {
  import opened Wrappers

  /** Entity ids are random UUIDs in the program; here they are numbers drawn from a fresh supply. */
  type Id = nat

  datatype Host = Host(
    name: string,
    address: string,
    groupId: Option<Id>,
    sshConfigId: Option<Id>,
    telnetConfigId: Option<Id>,
    webdavConfigId: Option<Id>,
    serialConfigId: Option<Id>,
    tagIds: seq<Id>,
    notes: string,
    osName: Option<string>,
    externalId: Option<string>,
    extras: string)

  datatype Group = Group(
    name: string,
    parentId: Option<Id>,
    sshConfigId: Option<Id>,
    telnetConfigId: Option<Id>,
    sortOrder: int,
    externalId: Option<string>)

  datatype SshConfig = SshConfig(port: Option<nat>, identityId: Option<Id>, extras: string)

  datatype TelnetConfig = TelnetConfig(port: Option<nat>, identityId: Option<Id>, extras: string)

  datatype WebDavConfig = WebDavConfig(identityId: Option<Id>, extras: string)

  /** Credentials. Invisible ones are inline: they belong to one config. */
  datatype Identity = Identity(
    name: string,
    username: string,
    password: Option<string>,
    sshKeyId: Option<Id>,
    sshCertificateId: Option<Id>,
    isVisible: bool,
    sshId: bool,
    sshIdKeyType: Option<string>,
    extras: string)

  datatype SshKey = SshKey(
    name: string,
    keyType: string,
    privateKey: string,
    publicKey: Option<string>,
    passphrase: Option<string>,
    fido2: Option<string>,
    sshId: bool)

  datatype Tag = Tag(name: string, color: Option<string>)

  datatype Payload =
    | HostP(host: Host)
    | GroupP(group: Group)
    | SshConfigP(ssh: SshConfig)
    | TelnetConfigP(telnet: TelnetConfig)
    | WebDavConfigP(webdav: WebDavConfig)
    | SerialConfigP(serial: string)
    | IdentityP(identity: Identity)
    | SshKeyP(key: SshKey)
    | TagP(tag: Tag)
    | OtherP(otherKind: string, body: string)
  {
    function Kind(): string {
      match this
      case HostP(_) => "host"
      case GroupP(_) => "group"
      case SshConfigP(_) => "ssh_config"
      case TelnetConfigP(_) => "telnet_config"
      case WebDavConfigP(_) => "webdav_config"
      case SerialConfigP(_) => "serial_config"
      case IdentityP(_) => "identity"
      case SshKeyP(_) => "ssh_key"
      case TagP(_) => "tag"
      case OtherP(kind, _) => kind
    }
  }
}
