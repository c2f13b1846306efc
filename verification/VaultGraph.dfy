/** The graph inside one vault: hosts and groups own configs, configs own inline
    identities, identities name keys, hosts sit in groups and groups in groups. */
module VaultGraph {
  import opened Wrappers
  import opened Schema
  import F = Forest

  type Vault = map<Id, Payload>

  datatype Sort = HostS | GroupS | SshS | TelnetS | WebDavS | SerialS | IdentityS | KeyS | TagS | OtherS

  function SortOf(p: Payload): Sort {
    match p
    case HostP(_) => HostS
    case GroupP(_) => GroupS
    case SshConfigP(_) => SshS
    case TelnetConfigP(_) => TelnetS
    case WebDavConfigP(_) => WebDavS
    case SerialConfigP(_) => SerialS
    case IdentityP(_) => IdentityS
    case SshKeyP(_) => KeyS
    case TagP(_) => TagS
    case OtherP(_, _) => OtherS
  }

  predicate IsOwner(p: Payload) { p.HostP? || p.GroupP? }

  predicate IsConfig(p: Payload) { p.SshConfigP? || p.TelnetConfigP? || p.WebDavConfigP? }

  predicate IsInline(p: Payload) { p.IdentityP? && !p.identity.isVisible }

  function Opt(id: Option<Id>): set<Id> { if id.Some? then {id.value} else {} }

  /** The inline configs a host or group owns. */
  function ConfigRefs(p: Payload): set<Id> {
    match p
    case HostP(h) => Opt(h.sshConfigId) + Opt(h.telnetConfigId) + Opt(h.webdavConfigId)
    case GroupP(g) => Opt(g.sshConfigId) + Opt(g.telnetConfigId)
    case _ => {}
  }

  function IdentityRef(p: Payload): Option<Id> {
    match p
    case SshConfigP(c) => c.identityId
    case TelnetConfigP(c) => c.identityId
    case WebDavConfigP(c) => c.identityId
    case _ => None
  }

  function KeyRef(p: Payload): Option<Id> {
    if p.IdentityP? then p.identity.sshKeyId else None
  }

  /** The group a host sits in, or the parent of a group. */
  function GroupRef(p: Payload): Option<Id> {
    match p
    case HostP(h) => h.groupId
    case GroupP(g) => g.parentId
    case _ => None
  }

  predicate Points(v: Vault, ref: Option<Id>, sort: Sort) {
    ref.Some? ==> ref.value in v && SortOf(v[ref.value]) == sort
  }

  predicate OwnerRefsOk(v: Vault, p: Payload) {
    match p
    case HostP(h) =>
      && Points(v, h.sshConfigId, SshS) && Points(v, h.telnetConfigId, TelnetS) && Points(v, h.webdavConfigId, WebDavS)
      && forall t :: t in h.tagIds ==> Points(v, Some(t), TagS)
    case GroupP(g) => Points(v, g.sshConfigId, SshS) && Points(v, g.telnetConfigId, TelnetS)
    case _ => true
  }

  /** Everything `p` refers to exists and is of the right kind. */
  predicate RefsOk(v: Vault, p: Payload) {
    && OwnerRefsOk(v, p)
    && Points(v, GroupRef(p), GroupS)
    && Points(v, IdentityRef(p), IdentityS)
    && Points(v, KeyRef(p), KeyS)
  }

  ghost predicate Closed(v: Vault) { forall id :: id in v ==> RefsOk(v, v[id]) }

  predicate Owns(v: Vault, o: Id, c: Id) { o in v && c in ConfigRefs(v[o]) }

  predicate Uses(v: Vault, c: Id, i: Id) { c in v && IdentityRef(v[c]) == Some(i) }

  /** No config has two owners. */
  ghost predicate ConfigsUnshared(v: Vault) {
    forall a, b, c :: Owns(v, a, c) && Owns(v, b, c) ==> a == b
  }

  /** No inline identity is used by two configs. */
  ghost predicate InlineUnshared(v: Vault) {
    forall a, b, i :: i in v && IsInline(v[i]) && Uses(v, a, i) && Uses(v, b, i) ==> a == b
  }

  ghost predicate NoOrphans(v: Vault) {
    && (forall c :: c in v && IsConfig(v[c]) ==> exists o :: Owns(v, o, c))
    && (forall i :: i in v && IsInline(v[i]) ==> exists c :: Uses(v, c, i))
  }

  /** No reference dangles; every config has exactly one owner and every inline
      identity exactly one config. */
  ghost predicate WellFormed(v: Vault) {
    Closed(v) && ConfigsUnshared(v) && InlineUnshared(v) && NoOrphans(v)
  }

  /** The groups of the vault with their parents. */
  function GroupTree(v: Vault): F.Tree { map id | id in v && v[id].GroupP? :: v[id].group.parentId }

  // ----- rewiring one owner -----

  function ConfigsOf(v: Vault, o: Id): set<Id> { if o in v then ConfigRefs(v[o]) else {} }

  /** The inline identities behind a set of configs. */
  function InlineOf(v: Vault, configs: set<Id>): set<Id> {
    set c | c in configs && c in v && IdentityRef(v[c]).Some? &&
            IdentityRef(v[c]).value in v && IsInline(v[IdentityRef(v[c]).value]) :: IdentityRef(v[c]).value
  }

  /** What `o` owns, before or after. */
  function Mine(v: Vault, o: Id): set<Id> { {o} + ConfigsOf(v, o) + InlineOf(v, ConfigsOf(v, o)) }

  /** `p` became `q` without changing kind or owned configs: at most moved, retagged or relabelled. */
  predicate KeepsConfigs(p: Payload, q: Payload) {
    p == q || (IsOwner(p) && SortOf(p) == SortOf(q) && ConfigRefs(p) == ConfigRefs(q))
  }

  /** Owner `o` trades the things `was` for the things `now`; besides them only
      the keys `keys` and the new tags `tags` may differ. */
  datatype Rewiring = Rewiring(o: Id, was: set<Id>, now: set<Id>, keys: set<Id>, tags: set<Id>)

  /** Everything else stays and keeps what it owns. */
  ghost predicate OthersKept(v: Vault, w: Vault, r: Rewiring) {
    forall x :: x !in r.was && x !in r.now && x !in r.keys && x !in r.tags ==>
      (x in v <==> x in w) && (x in v && x in w ==> KeepsConfigs(v[x], w[x]))
  }

  ghost predicate OwnerKept(v: Vault, w: Vault, r: Rewiring) {
    && r.was == Mine(v, r.o) && r.now == Mine(w, r.o)
    && (r.o in v ==> IsOwner(v[r.o])) && (r.o in w ==> IsOwner(w[r.o]))
    && (r.o in v && r.o in w ==> SortOf(v[r.o]) == SortOf(w[r.o]))
  }

  /** What `o` owns now is new or was its own; what it gave up is gone. */
  ghost predicate MineStable(v: Vault, w: Vault, r: Rewiring) {
    && (forall x :: x in r.now && x in v ==> x in r.was)
    && (forall x :: x in r.was && x in w ==> x in r.now)
  }

  /** Keys stay keys, and a key that went was named by no identity but `o`'s. */
  ghost predicate KeysKept(v: Vault, w: Vault, r: Rewiring) {
    && (forall k :: k in r.keys ==> (k in v ==> v[k].SshKeyP?) && (k in w ==> w[k].SshKeyP?))
    && (forall k, x :: k in r.keys && k !in w && x in v && KeyRef(v[x]) == Some(k) ==> x in r.was)
  }

  ghost predicate TagsAdded(v: Vault, w: Vault, r: Rewiring) {
    forall t :: t in r.tags ==> t !in v && t in w && w[t].TagP?
  }

  ghost predicate Rewired(v: Vault, w: Vault, r: Rewiring) {
    OthersKept(v, w, r) && OwnerKept(v, w, r) && MineStable(v, w, r) && KeysKept(v, w, r) && TagsAdded(v, w, r)
  }

  /** Whatever is new or changed refers to things that exist, and nothing is left in a group that went. */
  ghost predicate NewRefsOk(v: Vault, w: Vault, r: Rewiring) {
    && (forall x :: x in w && (x in r.now || x !in v || w[x] != v[x]) ==> RefsOk(w, w[x]))
    && (r.o !in w ==> forall x :: x in w ==> GroupRef(w[x]) != Some(r.o))
  }

  ghost predicate OwnInlineUnshared(w: Vault, o: Id) {
    forall a, b, i ::
      a in ConfigsOf(w, o) && b in ConfigsOf(w, o) && i in w && IsInline(w[i]) && Uses(w, a, i) && Uses(w, b, i)
      ==> a == b
  }

  lemma MineSorts(v: Vault, o: Id, x: Id)
    requires Closed(v) && x in Mine(v, o) && x != o
    ensures x in v && (IsConfig(v[x]) || IsInline(v[x]))
    ensures IsConfig(v[x]) ==> Owns(v, o, x)
    ensures IsInline(v[x]) ==> exists c :: Owns(v, o, c) && Uses(v, c, x)
  {
    if x in ConfigsOf(v, o) {
      assert RefsOk(v, v[o]);
    } else {
      var c :| c in ConfigsOf(v, o) && c in v && IdentityRef(v[c]) == Some(x);
      assert Owns(v, o, c) && Uses(v, c, x);
    }
  }

  /** An entity that is not `o`'s and not a key is still there, and of the same kind. */
  lemma Untouched(v: Vault, w: Vault, r: Rewiring, x: Id)
    requires OthersKept(v, w, r) && MineStable(v, w, r) && KeysKept(v, w, r) && TagsAdded(v, w, r)
    requires x in v && x !in r.was && !v[x].SshKeyP?
    ensures x in w && KeepsConfigs(v[x], w[x]) && x !in r.now
  {
  }

  /** A config somebody else owns is not one of `o`'s things. */
  lemma OthersConfig(v: Vault, o: Id, x: Id, c: Id)
    requires Closed(v) && ConfigsUnshared(v) && Owns(v, x, c) && x != o && (o in v ==> IsOwner(v[o]))
    ensures c !in Mine(v, o) && c in v && IsConfig(v[c])
  {
    assert RefsOk(v, v[x]);
    if c in Mine(v, o) { MineSorts(v, o, c); }
  }

  /** An identity used by a config that is not `o`'s is not one of `o`'s things. */
  lemma OthersIdentity(v: Vault, o: Id, c: Id, i: Id)
    requires Closed(v) && InlineUnshared(v) && Uses(v, c, i) && c !in Mine(v, o) && (o in v ==> IsOwner(v[o]))
    ensures i !in Mine(v, o) && i in v && v[i].IdentityP?
  {
    assert RefsOk(v, v[c]);
    if i in Mine(v, o) { MineSorts(v, o, i); }
  }

  /** Groups, tags and keys are not among the things an owner has. */
  lemma NotMine(v: Vault, o: Id, x: Id)
    requires Closed(v) && x in v && x != o && SortOf(v[x]) in {GroupS, TagS, KeyS}
    ensures x !in Mine(v, o)
  {
    if x in Mine(v, o) { MineSorts(v, o, x); }
  }

  /** Somebody else's config is exactly as it was. */
  lemma ConfigStands(v: Vault, w: Vault, r: Rewiring, x: Id, c: Id)
    requires Closed(v) && ConfigsUnshared(v) && Rewired(v, w, r) && Owns(v, x, c) && x != r.o
    ensures c in v && IsConfig(v[c]) && c in w && w[c] == v[c] && c !in r.now
  {
    OthersConfig(v, r.o, x, c);
    Untouched(v, w, r, c);
  }

  lemma TagStands(v: Vault, w: Vault, r: Rewiring, t: Id)
    requires Closed(v) && Rewired(v, w, r) && Points(v, Some(t), TagS)
    ensures Points(w, Some(t), TagS)
  {
    if t != r.o { NotMine(v, r.o, t); }
    Untouched(v, w, r, t);
  }

  lemma OwnerRefsCopied(v: Vault, w: Vault, p: Payload)
    requires OwnerRefsOk(v, p)
    requires forall c :: c in ConfigRefs(p) ==> c in v && c in w && w[c] == v[c]
    requires p.HostP? ==> forall t :: t in p.host.tagIds ==> Points(w, Some(t), TagS)
    ensures OwnerRefsOk(w, p)
  {
  }

  lemma OwnerRefsStand(v: Vault, w: Vault, r: Rewiring, x: Id)
    requires WellFormed(v) && Rewired(v, w, r) && x in v && x !in r.was
    ensures OwnerRefsOk(w, v[x])
  {
    var p := v[x];
    assert OwnerRefsOk(v, p) by { assert RefsOk(v, v[x]); }
    forall c | c in ConfigRefs(p)
      ensures c in v && c in w && w[c] == v[c]
    {
      assert Owns(v, x, c);
      ConfigStands(v, w, r, x, c);
    }
    if p.HostP? {
      forall t | t in p.host.tagIds
        ensures Points(w, Some(t), TagS)
      {
        assert Points(v, Some(t), TagS);
        TagStands(v, w, r, t);
      }
    }
    OwnerRefsCopied(v, w, p);
  }

  lemma GroupRefStands(v: Vault, w: Vault, r: Rewiring, g: Option<Id>)
    requires Closed(v) && Rewired(v, w, r) && Points(v, g, GroupS)
    requires r.o !in w ==> g != Some(r.o)
    ensures Points(w, g, GroupS)
  {
    if g.Some? && g.value != r.o {
      NotMine(v, r.o, g.value);
      Untouched(v, w, r, g.value);
    }
  }

  lemma IdentityRefStands(v: Vault, w: Vault, r: Rewiring, x: Id)
    requires WellFormed(v) && Rewired(v, w, r) && x in v && x !in r.was
    ensures Points(w, IdentityRef(v[x]), IdentityS)
  {
    var i := IdentityRef(v[x]);
    if i.Some? {
      assert Uses(v, x, i.value);
      OthersIdentity(v, r.o, x, i.value);
      Untouched(v, w, r, i.value);
    }
  }

  lemma KeyRefStands(v: Vault, w: Vault, r: Rewiring, x: Id)
    requires WellFormed(v) && Rewired(v, w, r) && x in v && x !in r.was
    ensures Points(w, KeyRef(v[x]), KeyS)
  {
    var k := KeyRef(v[x]);
    if k.Some? {
      assert RefsOk(v, v[x]);
      if k.value !in r.keys {
        if k.value != r.o { NotMine(v, r.o, k.value); }
        assert k.value !in r.now && k.value !in r.tags;
      }
    }
  }

  /** Rewiring one owner leaves no reference dangling anywhere. */
  lemma RewiringKeepsClosed(v: Vault, w: Vault, r: Rewiring)
    requires WellFormed(v) && Rewired(v, w, r) && NewRefsOk(v, w, r)
    ensures Closed(w)
  {
    forall x | x in w
      ensures RefsOk(w, w[x])
    {
      if x in v && w[x] == v[x] && x !in r.now {
        assert x !in r.was && RefsOk(v, v[x]);
        OwnerRefsStand(v, w, r, x);
        GroupRefStands(v, w, r, GroupRef(v[x]));
        IdentityRefStands(v, w, r, x);
        KeyRefStands(v, w, r, x);
      }
    }
  }

  /** Another owner owned the same config before, and `o` does not own it now. */
  lemma OwnerBefore(v: Vault, w: Vault, r: Rewiring, a: Id, c: Id)
    requires Closed(v) && ConfigsUnshared(v) && Rewired(v, w, r) && Closed(w) && Owns(w, a, c) && a != r.o
    ensures Owns(v, a, c) && c !in ConfigsOf(w, r.o)
  {
    if a in r.now { MineSorts(w, r.o, a); }
    assert a !in r.was;
    assert Owns(v, a, c);
    ConfigStands(v, w, r, a, c);
  }

  lemma RewiringKeepsConfigsUnshared(v: Vault, w: Vault, r: Rewiring)
    requires WellFormed(v) && Rewired(v, w, r) && Closed(w)
    ensures ConfigsUnshared(w)
  {
    forall a, b, c | Owns(w, a, c) && Owns(w, b, c)
      ensures a == b
    {
      if a != r.o { OwnerBefore(v, w, r, a, c); }
      if b != r.o { OwnerBefore(v, w, r, b, c); }
    }
  }

  /** A config that is not `o`'s was there before, with the same identity, and that is not `o`'s either. */
  lemma UserBefore(v: Vault, w: Vault, r: Rewiring, c: Id, i: Id)
    requires Closed(v) && InlineUnshared(v) && Rewired(v, w, r) && Closed(w) && Uses(w, c, i) && c !in r.now
    ensures Uses(v, c, i) && i in v && i in w && w[i] == v[i] && i !in r.now
  {
    assert c !in r.was && Uses(v, c, i);
    OthersIdentity(v, r.o, c, i);
    Untouched(v, w, r, i);
  }

  /** An inline identity used by one of `o`'s things is used by one of its configs, and is its own. */
  lemma MineUser(w: Vault, o: Id, c: Id, i: Id)
    requires Closed(w) && Uses(w, c, i) && c in Mine(w, o) && i in w && IsInline(w[i]) && (o in w ==> IsOwner(w[o]))
    ensures c in ConfigsOf(w, o) && i in Mine(w, o)
  {
    if c != o { MineSorts(w, o, c); }
    assert i in InlineOf(w, ConfigsOf(w, o));
  }

  lemma RewiringKeepsInlineUnshared(v: Vault, w: Vault, r: Rewiring)
    requires WellFormed(v) && Rewired(v, w, r) && Closed(w) && OwnInlineUnshared(w, r.o)
    ensures InlineUnshared(w)
  {
    forall a, b, i | i in w && IsInline(w[i]) && Uses(w, a, i) && Uses(w, b, i)
      ensures a == b
    {
      if a in r.now { MineUser(w, r.o, a, i); } else { UserBefore(v, w, r, a, i); }
      if b in r.now { MineUser(w, r.o, b, i); } else { UserBefore(v, w, r, b, i); }
    }
  }

  lemma RewiringKeepsNoOrphans(v: Vault, w: Vault, r: Rewiring)
    requires WellFormed(v) && Rewired(v, w, r) && Closed(w)
    ensures NoOrphans(w)
  {
    forall c | c in w && IsConfig(w[c])
      ensures exists o :: Owns(w, o, c)
    {
      if c in r.now {
        MineSorts(w, r.o, c);
      } else {
        assert c in v && w[c] == v[c];
        var o :| Owns(v, o, c);
        OwnerStands(v, w, r, o, c);
      }
    }
    forall i | i in w && IsInline(w[i])
      ensures exists c :: Uses(w, c, i)
    {
      if i in r.now {
        MineSorts(w, r.o, i);
      } else {
        assert i in v && w[i] == v[i];
        var c :| Uses(v, c, i);
        UserStands(v, w, r, c, i);
      }
    }
  }

  /** The owner of a config that is not `o`'s is another one, and still owns it. */
  lemma OwnerStands(v: Vault, w: Vault, r: Rewiring, o: Id, c: Id)
    requires WellFormed(v) && Rewired(v, w, r) && Owns(v, o, c) && c in w && c !in r.now
    ensures Owns(w, o, c)
  {
    assert c !in r.was;
    if o in r.was && o != r.o { MineSorts(v, r.o, o); }
    Untouched(v, w, r, o);
  }

  lemma UserStands(v: Vault, w: Vault, r: Rewiring, c: Id, i: Id)
    requires WellFormed(v) && Rewired(v, w, r) && Uses(v, c, i) && i in w && IsInline(w[i]) && w[i] == v[i] && i in v
    requires i !in r.now
    ensures Uses(w, c, i)
  {
    assert i !in r.was;
    if c in r.was { MineUser(v, r.o, c, i); }
    Untouched(v, w, r, c);
  }

  /** A vault is as well-formed after one owner was rewired as it was before. */
  lemma RewiringKeepsWellFormed(v: Vault, w: Vault, r: Rewiring)
    requires WellFormed(v) && Rewired(v, w, r) && NewRefsOk(v, w, r) && OwnInlineUnshared(w, r.o)
    ensures WellFormed(w)
  {
    RewiringKeepsClosed(v, w, r);
    RewiringKeepsConfigsUnshared(v, w, r);
    RewiringKeepsInlineUnshared(v, w, r);
    RewiringKeepsNoOrphans(v, w, r);
  }
}
