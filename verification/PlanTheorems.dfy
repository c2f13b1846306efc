/** What the bridge's host and group plans do to a readable, well-formed vault. */
module PlanTheorems {
  import opened Wrappers
  import opened Schema
  import opened VaultGraph
  import opened BridgePlans
  import opened PlanSwaps
  import opened PlanAssembly
  import opened Text

  /** Telnet sections carry no key: request validation refuses them. */
  predicate NoTelnetKey(telnet: Option<Section>) {
    telnet.Some? && telnet.value.credentials.Some? ==> telnet.value.credentials.value.key.None?
  }

  lemma TelnetPutsNoKey(w: View, next: Id, prior: Option<Id>, section: Option<Section>, name: string, x: Id)
    requires NoTelnetKey(section) && x in TelnetSwap(w, next, prior, section, name).puts
    ensures !TelnetSwap(w, next, prior, section, name).puts[x].SshKeyP?
  {
  }

  lemma PlannableLater(w: View, next: Id, later: Id)
    requires Plannable(w, next) && next <= later
    ensures Plannable(w, later)
  {
  }

  /** The SSH and Telnet slots of one request never meet. */
  lemma SectionsApart(w: View, ssh: Swap, telnet: Swap)
    requires WellFormed(w.data) && Swapped(w.data, ssh) && Swapped(w.data, telnet)
    requires ssh.sort == SshS && telnet.sort == TelnetS && ssh.hi <= telnet.lo
    requires Points(w.data, ssh.prior, SshS) && Points(w.data, telnet.prior, TelnetS)
    requires forall y :: y in w.data ==> y < ssh.lo
    requires forall x :: x in telnet.puts ==> !telnet.puts[x].SshKeyP?
    ensures ssh.puts.Keys !! telnet.puts.Keys && ssh.puts.Keys !! telnet.drops && telnet.puts.Keys !! ssh.drops
  {
    forall x | x in telnet.puts
      ensures x !in ssh.puts && x !in ssh.drops
    {
      PutsApart(w.data, telnet, ssh, x);
      PutsAndDropsApart(w.data, telnet, ssh, x);
    }
    forall x | x in ssh.puts
      ensures x !in telnet.drops
    {
      PutsAndDropsApart(w.data, ssh, telnet, x);
    }
  }

  /** Both halves of a request, planned one after the other. */
  ghost predicate TwoSlots(v: Vault, ssh: Swap, telnet: Swap) {
    && Swapped(v, ssh) && Swapped(v, telnet) && ssh.sort == SshS && telnet.sort == TelnetS && KeysPut(ssh) &&
      KeysPut(telnet)
    && ssh.lo <= ssh.hi == telnet.lo <= telnet.hi
    && ssh.puts.Keys !! telnet.puts.Keys && ssh.puts.Keys !! telnet.drops && telnet.puts.Keys !! ssh.drops
  }

  lemma SectionsAreTwoSlots(
    w: View, next: Id, sshPrior: Option<Id>, wanted: bool, ssh: Option<Section>,
    telnetPrior: Option<Id>, telnet: Option<Section>, name: string)
    requires Plannable(w, next) && NoTelnetKey(telnet)
    requires Points(w.data, sshPrior, SshS) && Points(w.data, telnetPrior, TelnetS)
    ensures
      var s := SshSwap(w, next, sshPrior, wanted, ssh, name);
      s.lo == next && TwoSlots(w.data, s, TelnetSwap(w, s.hi, telnetPrior, telnet, name))
  {
    var s := SshSwap(w, next, sshPrior, wanted, ssh, name);
    var t := TelnetSwap(w, s.hi, telnetPrior, telnet, name);
    SshIsSwapped(w, next, sshPrior, wanted, ssh, name);
    assert next <= s.hi by { assert s.lo <= s.hi; }
    PlannableLater(w, next, s.hi);
    TelnetIsSwapped(w, s.hi, telnetPrior, telnet, name);
    assert t.lo <= t.hi;
    forall x | x in t.puts
      ensures !t.puts[x].SshKeyP?
    {
      TelnetPutsNoKey(w, s.hi, telnetPrior, telnet, name, x);
    }
    hide SshSwap, TelnetSwap, Swapped;
    SectionsApart(w, s, t);
  }

  // ----- tags -----

  /** New tags get new ids; every id handed out names a tag. */
  lemma {:induction false} TagsFit(w: View, next: Id, fold: string -> string, tags: seq<string>)
    requires w.Valid()
    ensures
      var (e, ids, _) := PlanTags(w, next, fold, tags);
      && next <= e.next && e.drops == {}
      && (forall t :: t in e.puts ==> next <= t < e.next && e.puts[t].TagP?)
      && (forall t :: t in ids ==> t in e.puts || (t in w.data && w.data[t].TagP?))
  {
    if tags != [] {
      TagsFit(w, next, fold, tags[..|tags| - 1]);
    }
  }

  // ----- hosts -----

  lemma {:induction false} NamedGroupIsGroup(w: View, name: Option<string>)
    requires NamedGroup(w, name).Ok?
    ensures Points(w.data, NamedGroup(w, name).value, GroupS)
  {
  }

  /** An owner with an SSH and a Telnet slot planned, its other slot left alone. */
  function OwnerAssembly(o: Id, owner: Payload, ssh: Swap, telnet: Swap, webdav: Option<Id>, tags: map<Id, Payload>):
      Assembly
  {
    Assembly(o, Some(owner), [ssh, telnet, Swap(WebDavS, webdav, webdav, map[], {}, telnet.hi, telnet.hi)], tags, map[])
  }

  lemma OwnerIsAssembled(v: Vault, o: Id, owner: Payload, ssh: Swap, telnet: Swap, webdav: Option<Id>,
      tags: map<Id, Payload>)
    requires WellFormed(v) && TwoSlots(v, ssh, telnet) && IsOwner(owner)
    requires o < ssh.lo && (forall x :: x in v ==> x < ssh.lo)
    requires forall t :: t in tags ==> telnet.hi <= t && tags[t].TagP?
    requires if o in v then
        SortOf(v[o]) == SortOf(owner) && ssh.prior == SlotRef(v[o], 0) && telnet.prior == SlotRef(v[o], 1) &&
          webdav == SlotRef(v[o], 2)
      else ssh.prior == telnet.prior == webdav == None
    requires ssh.now == SlotRef(owner, 0) && telnet.now == SlotRef(owner, 1) && webdav == SlotRef(owner, 2)
    ensures Assembled(v, OwnerAssembly(o, owner, ssh, telnet, webdav, tags))
  {
    var a := OwnerAssembly(o, owner, ssh, telnet, webdav, tags);
    hide Swapped, WellFormed;
    assert SlotsFit(v, a);
    assert SlotsApart(a);
    assert IdsFresh(v, a);
    assert OwnerFits(v, a);
  }

  /** Everything a plan of two slots puts, and what it drops. */
  ghost predicate Writes(e: Edit, o: Id, owner: Payload, ssh: Swap, telnet: Swap, tags: map<Id, Payload>) {
    e.puts == (ssh.puts + telnet.puts + tags)[o := owner] && e.drops == ssh.drops + telnet.drops
  }

  lemma SlotMissesOwner(v: Vault, s: Swap, o: Id)
    requires Closed(v) && Swapped(v, s) && Points(v, s.prior, s.sort) && s.sort in {SshS, TelnetS, WebDavS}
    requires (forall y :: y in v ==> y < s.lo) && (o < s.lo || s.hi <= o) && (o in v ==> IsOwner(v[o]))
    ensures o !in s.puts && o !in s.drops
  {
  }

  lemma SlotMissesNewIds(v: Vault, s: Swap, x: Id)
    requires Closed(v) && Swapped(v, s) && Points(v, s.prior, s.sort) && (forall y :: y in v ==> y < s.lo) && s.hi <= x
    ensures x !in s.puts && x !in s.drops
  {
  }

  /** Owner, tags and the two slots write different ids. */
  ghost predicate WritesApart(o: Id, ssh: Swap, telnet: Swap, tags: map<Id, Payload>) {
    && ssh.puts.Keys !! telnet.puts.Keys && ssh.puts.Keys !! ssh.drops && telnet.puts.Keys !! telnet.drops
    && ssh.puts.Keys !! telnet.drops && telnet.puts.Keys !! ssh.drops
    && tags.Keys !! ssh.puts.Keys + telnet.puts.Keys + ssh.drops + telnet.drops
    && o !in ssh.puts && o !in telnet.puts && o !in ssh.drops && o !in telnet.drops && o !in tags
  }

  lemma WritesAreApart(v: Vault, o: Id, owner: Payload, ssh: Swap, telnet: Swap, webdav: Option<Id>,
      tags: map<Id, Payload>)
    requires Assembled(v, OwnerAssembly(o, owner, ssh, telnet, webdav, tags)) && TwoSlots(v, ssh, telnet)
    ensures WritesApart(o, ssh, telnet, tags)
  {
    var a := OwnerAssembly(o, owner, ssh, telnet, webdav, tags);
    PriorPoints(v, a, 0);
    PriorPoints(v, a, 1);
    SlotMissesOwner(v, ssh, o);
    SlotMissesOwner(v, telnet, o);
    forall t | t in tags
      ensures t != o && t !in ssh.puts && t !in telnet.puts && t !in ssh.drops && t !in telnet.drops
    {
      SlotMissesNewIds(v, ssh, t);
      SlotMissesNewIds(v, telnet, t);
    }
  }

  lemma BySlot(o: Id, owner: Payload, ssh: Swap, telnet: Swap, webdav: Option<Id>, tags: map<Id, Payload>, x: Id)
    ensures var a := OwnerAssembly(o, owner, ssh, telnet, webdav, tags);
      && (PutBySlot(a, x) <==> x in ssh.puts || x in telnet.puts)
      && (DroppedBySlot(a, x) <==> x in ssh.drops || x in telnet.drops)
  {
    var a := OwnerAssembly(o, owner, ssh, telnet, webdav, tags);
    assert a.swaps[0] == ssh && a.swaps[1] == telnet && a.swaps[2].puts == map[] && a.swaps[2].drops == {};
  }

  lemma PutIsMade(v: Vault, o: Id, owner: Payload, ssh: Swap, telnet: Swap, webdav: Option<Id>,
      tags: map<Id, Payload>, e: Edit, k: nat, x: Id)
    requires WritesApart(o, ssh, telnet, tags) && Writes(e, o, owner, ssh, telnet, tags) && k < SLOTS
    requires x in OwnerAssembly(o, owner, ssh, telnet, webdav, tags).swaps[k].puts
    ensures x in Apply(v, e) && Apply(v, e)[x] == OwnerAssembly(o, owner, ssh, telnet, webdav, tags).swaps[k].puts[x]
  {
    if k == 0 { assert x in ssh.puts; } else if k == 1 { assert x in telnet.puts; }
  }

  lemma OwnerRestUntouched(v: Vault, o: Id, owner: Payload, ssh: Swap, telnet: Swap, webdav: Option<Id>,
      tags: map<Id, Payload>, e: Edit)
    requires Writes(e, o, owner, ssh, telnet, tags)
    ensures RestUntouched(v, OwnerAssembly(o, owner, ssh, telnet, webdav, tags), Apply(v, e))
  {
    var a, w := OwnerAssembly(o, owner, ssh, telnet, webdav, tags), Apply(v, e);
    forall x | x != a.o && !PutBySlot(a, x) && !DroppedBySlot(a, x) && x !in a.tags && x !in a.moved
      ensures (x in v <==> x in w) && (x in v && x in w ==> v[x] == w[x])
    {
      BySlot(o, owner, ssh, telnet, webdav, tags, x);
    }
  }

  /** A plan never both changes and deletes an id, and what it makes is what its slots say. */
  lemma EditsMakeAssembly(v: Vault, o: Id, owner: Payload, ssh: Swap, telnet: Swap, webdav: Option<Id>,
      tags: map<Id, Payload>, e: Edit)
    requires WritesApart(o, ssh, telnet, tags) && Writes(e, o, owner, ssh, telnet, tags)
    ensures e.puts.Keys !! e.drops
    ensures Makes(v, OwnerAssembly(o, owner, ssh, telnet, webdav, tags), Apply(v, e))
  {
    var a, w := OwnerAssembly(o, owner, ssh, telnet, webdav, tags), Apply(v, e);
    OwnerRestUntouched(v, o, owner, ssh, telnet, webdav, tags, e);
    assert ExtrasMade(a, w);
    assert SlotsMade(a, w) by {
      forall k, x | 0 <= k < |a.swaps| && x in a.swaps[k].puts
        ensures x in w && w[x] == a.swaps[k].puts[x]
      {
        PutIsMade(v, o, owner, ssh, telnet, webdav, tags, e, k, x);
      }
      forall x | DroppedBySlot(a, x)
        ensures x !in w
      {
        BySlot(o, owner, ssh, telnet, webdav, tags, x);
      }
    }
  }

  // ----- the theorems -----

  /** What a plan makes of a vault it may rely on. */
  ghost predicate Sound(v: Vault, e: Edit) {
    e.puts.Keys !! e.drops && WellFormed(Apply(v, e))
  }

  /** The parts of an upsert: its owner, two slots and new tags. */
  datatype Parts = Parts(o: Id, owner: Payload, ssh: Swap, telnet: Swap, webdav: Option<Id>, tags: map<Id, Payload>)
  {
    function Assembly(): Assembly { OwnerAssembly(o, owner, ssh, telnet, webdav, tags) }
  }

  ghost predicate PartsOk(v: Vault, p: Parts) {
    && Assembled(v, p.Assembly()) && TwoSlots(v, p.ssh, p.telnet)
    && Points(v, GroupRef(p.owner), GroupS) && GroupRef(p.owner) != Some(p.o)
    && (p.owner.HostP? ==> forall t :: t in p.owner.host.tagIds ==> t in p.tags || (t in v && v[t].TagP?))
  }

  function HostParts(w: View, next: Id, externalId: string, req: HostRequest, fold: string -> string): Parts
    requires NamedGroup(w, req.group).Ok?
  {
    var existing := HostByExternalId(w, externalId);
    var o := if existing.Some? then existing.value else next;
    var next1 := if existing.Some? then next else next + 1;
    var was := HostNow(w, o);
    var ssh := SshSwap(w, next1, was.sshConfigId, req.ssh.Some? || req.telnet.None?, req.ssh, HostName(req));
    var telnet := TelnetSwap(w, ssh.hi, was.telnetConfigId, req.telnet, HostName(req));
    var (tags, tagIds, _) := PlanTags(w, telnet.hi, fold, req.tags);
    Parts(o, HostP(HostAs(was, externalId, req, NamedGroup(w, req.group).value, ssh.now, telnet.now, tagIds)),
          ssh, telnet, was.webdavConfigId, tags.puts)
  }

  lemma HostWrites(w: View, next: Id, externalId: string, req: HostRequest, fold: string -> string)
    requires w.Valid() && PlanHost(w, next, externalId, req, fold).Ok?
    ensures NamedGroup(w, req.group).Ok?
    ensures var p := HostParts(w, next, externalId, req, fold);
      Writes(PlanHost(w, next, externalId, req, fold).value, p.o, p.owner, p.ssh, p.telnet, p.tags)
  {
    var p := HostParts(w, next, externalId, req, fold);
    TagsFit(w, p.telnet.hi, fold, req.tags);
  }

  lemma HostPartsOk(w: View, next: Id, externalId: string, req: HostRequest, fold: string -> string)
    requires Plannable(w, next) && NoTelnetKey(req.telnet) && NamedGroup(w, req.group).Ok?
    ensures PartsOk(w.data, HostParts(w, next, externalId, req, fold))
  {
    var existing := HostByExternalId(w, externalId);
    var p := HostParts(w, next, externalId, req, fold);
    var next1 := if existing.Some? then next else next + 1;
    var was := HostNow(w, p.o);
    if existing.Some? { assert RefsOk(w.data, w.data[p.o]); }
    PlannableLater(w, next, next1);
    hide SshSwap, TelnetSwap, PlanTags, NamedGroup;
    SectionsAreTwoSlots(w, next1, was.sshConfigId, req.ssh.Some? || req.telnet.None?, req.ssh, was.telnetConfigId,
      req.telnet, HostName(req));
    TagsFit(w, p.telnet.hi, fold, req.tags);
    NamedGroupIsGroup(w, req.group);
    OwnerIsAssembled(w.data, p.o, p.owner, p.ssh, p.telnet, p.webdav, p.tags);
  }

  /** A host upsert keeps the vault well-formed: no reference dangles, every
      config and inline identity has one owner, nothing is orphaned, and no id
      is both changed and deleted. */
  lemma HostPlanIsSound(w: View, next: Id, externalId: string, req: HostRequest, fold: string -> string)
    requires Plannable(w, next) && NoTelnetKey(req.telnet)
    requires PlanHost(w, next, externalId, req, fold).Ok?
    ensures Sound(w.data, PlanHost(w, next, externalId, req, fold).value)
  {
    HostWrites(w, next, externalId, req, fold);
    HostPartsOk(w, next, externalId, req, fold);
    hide PlanHost, HostParts, PartsOk;
    PartsAreSound(w.data, HostParts(w, next, externalId, req, fold), PlanHost(w, next, externalId, req, fold).value);
  }

  /** An assembled owner whose group and tags exist makes a sound plan. */
  lemma PartsAreSound(v: Vault, p: Parts, e: Edit)
    requires PartsOk(v, p) && Writes(e, p.o, p.owner, p.ssh, p.telnet, p.tags)
    ensures Sound(v, e)
  {
    var a, w := p.Assembly(), Apply(v, e);
    WritesAreApart(v, p.o, p.owner, p.ssh, p.telnet, p.webdav, p.tags);
    EditsMakeAssembly(v, p.o, p.owner, p.ssh, p.telnet, p.webdav, p.tags, e);
    assert KeysLinked(a, w) by {
      assert a.swaps[0] == p.ssh && a.swaps[1] == p.telnet && a.swaps[2].puts == map[];
      KeysPutLink(a, w);
    }
    hide TwoSlots, Writes, WritesApart, Makes, Apply, KeysLinked;
    var g := GroupRef(p.owner);
    if g.Some? { BystanderStands(v, a, w, g.value); }
    if p.owner.HostP? {
      forall t | t in p.owner.host.tagIds
        ensures Points(w, Some(t), TagS)
      {
        TagPoints(v, a, w, t);
      }
    }
    AssemblyKeepsWellFormed(v, a, w);
  }

  lemma OwnerIsNoTag(v: Vault, a: Assembly, t: Id)
    requires Assembled(v, a) && t in v && v[t].TagP?
    ensures t != a.o
  {
    hide SlotsFit, IdsFresh, SlotsApart, WellFormed;
  }

  lemma NewTagPoints(v: Vault, a: Assembly, w: Vault, t: Id)
    requires Assembled(v, a) && Makes(v, a, w) && t in a.tags
    ensures Points(w, Some(t), TagS)
  {
    hide SlotsFit, OwnerFits, SlotsApart, WellFormed, SlotsMade, RestUntouched;
  }

  lemma TagPoints(v: Vault, a: Assembly, w: Vault, t: Id)
    requires Assembled(v, a) && Makes(v, a, w) && t !in a.moved && (t in a.tags || (t in v && v[t].TagP?))
    ensures Points(w, Some(t), TagS)
  {
    hide Assembled, Makes;
    if t in a.tags {
      NewTagPoints(v, a, w, t);
    } else {
      OwnerIsNoTag(v, a, t);
      BystanderStands(v, a, w, t);
    }
  }

  function GroupParts(w: View, next: Id, externalId: string, req: GroupRequest): Parts
    requires NamedGroup(w, req.parent).Ok?
  {
    var existing := GroupByExternalId(w, externalId);
    var o := if existing.Some? then existing.value else next;
    var next1 := if existing.Some? then next else next + 1;
    var was := GroupNow(w, o);
    var ssh := SshSwap(w, next1, was.sshConfigId, req.ssh.Some?, req.ssh, Trim(req.name));
    var telnet := TelnetSwap(w, ssh.hi, was.telnetConfigId, req.telnet, Trim(req.name));
    Parts(o, GroupP(GroupAs(was, externalId, req, NamedGroup(w, req.parent).value, ssh.now, telnet.now)),
          ssh, telnet, None, map[])
  }

  lemma GroupWrites(w: View, next: Id, externalId: string, req: GroupRequest)
    requires PlanGroup(w, next, externalId, req).Ok?
    ensures NamedGroup(w, req.parent).Ok?
    ensures var p := GroupParts(w, next, externalId, req);
      && Writes(PlanGroup(w, next, externalId, req).value, p.o, p.owner, p.ssh, p.telnet, p.tags)
      && NamedGroup(w, req.parent).value != Some(p.o)
  {
    var p := GroupParts(w, next, externalId, req);
    assert p.ssh.puts + p.telnet.puts + map[] == p.ssh.puts + p.telnet.puts;
  }

  lemma GroupPartsOk(w: View, next: Id, externalId: string, req: GroupRequest)
    requires Plannable(w, next) && NoTelnetKey(req.telnet) && NamedGroup(w, req.parent).Ok?
    requires NamedGroup(w, req.parent).value != Some(GroupParts(w, next, externalId, req).o)
    ensures PartsOk(w.data, GroupParts(w, next, externalId, req))
  {
    var existing := GroupByExternalId(w, externalId);
    var p := GroupParts(w, next, externalId, req);
    var next1 := if existing.Some? then next else next + 1;
    var was := GroupNow(w, p.o);
    if existing.Some? { assert RefsOk(w.data, w.data[p.o]); }
    PlannableLater(w, next, next1);
    hide SshSwap, TelnetSwap, NamedGroup;
    SectionsAreTwoSlots(w, next1, was.sshConfigId, req.ssh.Some?, req.ssh, was.telnetConfigId, req.telnet,
      Trim(req.name));
    NamedGroupIsGroup(w, req.parent);
    OwnerIsAssembled(w.data, p.o, p.owner, p.ssh, p.telnet, p.webdav, p.tags);
  }

  /** So does a group upsert. */
  lemma GroupPlanIsSound(w: View, next: Id, externalId: string, req: GroupRequest)
    requires Plannable(w, next) && NoTelnetKey(req.telnet)
    requires PlanGroup(w, next, externalId, req).Ok?
    ensures Sound(w.data, PlanGroup(w, next, externalId, req).value)
  {
    GroupWrites(w, next, externalId, req);
    GroupPartsOk(w, next, externalId, req);
    hide PlanGroup, GroupParts, PartsOk;
    PartsAreSound(w.data, GroupParts(w, next, externalId, req), PlanGroup(w, next, externalId, req).value);
  }

  // ----- deletes -----

  /** An owner that goes with everything it owns. */
  function GoneAssembly(o: Id, ssh: Swap, telnet: Swap, webdav: Swap, moved: map<Id, Payload>): Assembly {
    Assembly(o, None, [ssh, telnet, webdav], map[], moved)
  }

  function EmptySlot(sort: Sort, prior: Option<Id>, drops: set<Id>, next: Id): Swap {
    Swap(sort, prior, None, map[], drops, next, next)
  }

  lemma SshDropIsSwapped(w: View, next: Id, prior: Option<Id>)
    requires Plannable(w, next) && Points(w.data, prior, SshS)
    ensures Swapped(w.data, EmptySlot(SshS, prior, DropSsh(w, prior), next))
  {
    SshIsSwapped(w, next, prior, false, None, "");
  }

  lemma TelnetDropIsSwapped(w: View, next: Id, prior: Option<Id>)
    requires Plannable(w, next) && Points(w.data, prior, TelnetS)
    ensures Swapped(w.data, EmptySlot(TelnetS, prior, DropTelnet(w, prior), next))
  {
    TelnetIsSwapped(w, next, prior, None, "");
  }

  lemma WebDavDropIsSwapped(w: View, next: Id, prior: Option<Id>)
    requires Plannable(w, next) && Points(w.data, prior, WebDavS)
    ensures Swapped(w.data, EmptySlot(WebDavS, prior, DropWebDav(w, prior), next))
  {
    WebDavIsSwapped(w, next, prior);
  }

  function GoneParts(w: View, next: Id, o: Id, moved: map<Id, Payload>): Assembly
    requires o in w.data
  {
    var p := w.data[o];
    GoneAssembly(o, EmptySlot(SshS, SlotRef(p, 0), DropSsh(w, SlotRef(p, 0)), next),
                 EmptySlot(TelnetS, SlotRef(p, 1), DropTelnet(w, SlotRef(p, 1)), next),
                 EmptySlot(WebDavS, SlotRef(p, 2), DropWebDav(w, SlotRef(p, 2)), next), moved)
  }

  lemma GoneIsAssembled(w: View, next: Id, o: Id, moved: map<Id, Payload>)
    requires Plannable(w, next) && o in w.data && IsOwner(w.data[o])
    requires forall x :: x in moved ==> x in w.data && x != o && IsOwner(w.data[x]) && KeepsConfigs(w.data[x], moved[x])
    ensures Assembled(w.data, GoneParts(w, next, o, moved))
  {
    var p, a := w.data[o], GoneParts(w, next, o, moved);
    assert RefsOk(w.data, p);
    SshDropIsSwapped(w, next, SlotRef(p, 0));
    TelnetDropIsSwapped(w, next, SlotRef(p, 1));
    WebDavDropIsSwapped(w, next, SlotRef(p, 2));
    hide Swapped, WellFormed, DropSsh, DropTelnet, DropWebDav;
    assert SlotsFit(w.data, a) && IdsFresh(w.data, a) && OwnerFits(w.data, a) && SlotsApart(a);
  }

  lemma GoneSlots(w: View, next: Id, o: Id, moved: map<Id, Payload>, x: Id)
    requires o in w.data
    ensures !PutBySlot(GoneParts(w, next, o, moved), x)
    ensures DroppedBySlot(GoneParts(w, next, o, moved), x) <==>
      x in DropSsh(w, SlotRef(w.data[o], 0)) + DropTelnet(w, SlotRef(w.data[o], 1)) +
        DropWebDav(w, SlotRef(w.data[o], 2))
  {
    var a := GoneParts(w, next, o, moved);
    assert a.swaps[0].drops == DropSsh(w, SlotRef(w.data[o], 0));
    assert a.swaps[1].drops == DropTelnet(w, SlotRef(w.data[o], 1));
    assert a.swaps[2].drops == DropWebDav(w, SlotRef(w.data[o], 2));
  }

  /** What an owner's slots drop: never a host, a group, a tag or a serial config. */
  lemma GoneDropsNoOwner(w: View, next: Id, o: Id, moved: map<Id, Payload>, x: Id)
    requires o in w.data && Assembled(w.data, GoneParts(w, next, o, moved))
    requires x in w.data && SortOf(w.data[x]) in {HostS, GroupS, TagS, SerialS}
    ensures !DroppedBySlot(GoneParts(w, next, o, moved), x)
  {
    var a := GoneParts(w, next, o, moved);
    if k :| 0 <= k < |a.swaps| && x in a.swaps[k].drops {
      var s := SlotFacts(w.data, a, k);
      if !Kept(s) { BystanderToSwap(w.data, s, x); }
    }
  }

  ghost predicate GoneWrites(w: View, o: Id, moved: map<Id, Payload>, e: Edit)
    requires o in w.data
  {
    && e.puts == moved
    && e.drops == DropSsh(w, SlotRef(w.data[o], 0)) + DropTelnet(w, SlotRef(w.data[o], 1)) +
      DropWebDav(w, SlotRef(w.data[o], 2)) + {o}
  }

  lemma GoneRestUntouched(w: View, next: Id, o: Id, moved: map<Id, Payload>, e: Edit)
    requires o in w.data && GoneWrites(w, o, moved, e)
    ensures RestUntouched(w.data, GoneParts(w, next, o, moved), Apply(w.data, e))
  {
    var a, v := GoneParts(w, next, o, moved), Apply(w.data, e);
    forall x | x != a.o && !PutBySlot(a, x) && !DroppedBySlot(a, x) && x !in a.tags && x !in a.moved
      ensures (x in w.data <==> x in v) && (x in w.data && x in v ==> w.data[x] == v[x])
    {
      GoneSlots(w, next, o, moved, x);
    }
  }

  lemma MovedIsKept(w: View, next: Id, o: Id, moved: map<Id, Payload>, e: Edit, x: Id)
    requires o in w.data && Assembled(w.data, GoneParts(w, next, o, moved)) && GoneWrites(w, o, moved, e) && x in moved
    ensures x !in e.drops
  {
    assert OwnerFits(w.data, GoneParts(w, next, o, moved));
    GoneSlots(w, next, o, moved, x);
    hide Assembled, DropSsh, DropTelnet, DropWebDav, DroppedBySlot;
    GoneDropsNoOwner(w, next, o, moved, x);
  }

  lemma GoneSlotsMade(w: View, next: Id, o: Id, moved: map<Id, Payload>, e: Edit)
    requires o in w.data && GoneWrites(w, o, moved, e)
    ensures SlotsMade(GoneParts(w, next, o, moved), Apply(w.data, e))
  {
    var a, v := GoneParts(w, next, o, moved), Apply(w.data, e);
    hide DropSsh, DropTelnet, DropWebDav;
    forall x | DroppedBySlot(a, x) ensures x !in v { GoneSlots(w, next, o, moved, x); }
  }

  lemma GonePutsKept(w: View, next: Id, o: Id, moved: map<Id, Payload>, e: Edit)
    requires o in w.data && Assembled(w.data, GoneParts(w, next, o, moved)) && GoneWrites(w, o, moved, e)
    ensures e.puts.Keys !! e.drops && e.puts == moved
  {
    hide Assembled, GoneParts, DropSsh, DropTelnet, DropWebDav;
    forall x | x in moved ensures x !in e.drops { MovedIsKept(w, next, o, moved, e, x); }
  }

  lemma GoneExtrasMade(w: View, next: Id, o: Id, moved: map<Id, Payload>, e: Edit)
    requires o in w.data && e.puts.Keys !! e.drops && e.puts == moved && o in e.drops
    ensures ExtrasMade(GoneParts(w, next, o, moved), Apply(w.data, e))
  {
    hide DropSsh, DropTelnet, DropWebDav;
  }

  lemma GoneMakes(w: View, next: Id, o: Id, moved: map<Id, Payload>, e: Edit)
    requires o in w.data && Assembled(w.data, GoneParts(w, next, o, moved)) && GoneWrites(w, o, moved, e)
    ensures e.puts.Keys !! e.drops && Makes(w.data, GoneParts(w, next, o, moved), Apply(w.data, e))
  {
    hide Assembled, GoneParts, DropSsh, DropTelnet, DropWebDav, SlotsMade, RestUntouched, ExtrasMade, Apply;
    GonePutsKept(w, next, o, moved, e);
    GoneRestUntouched(w, next, o, moved, e);
    GoneSlotsMade(w, next, o, moved, e);
    GoneExtrasMade(w, next, o, moved, e);
  }

  /** Nobody sits in a host. */
  lemma HostHoldsNobody(v: Vault, o: Id, w: Vault, a: Assembly)
    requires Closed(v) && o in v && v[o].HostP? && a.o == o && a.owner.None? && a.moved == map[]
    requires (forall x :: x in w ==> x in v && w[x] == v[x]) && forall k :: 0 <= k < |a.swaps| ==>
        a.swaps[k].puts == map[]
    ensures LinksOk(v, a, w)
  {
    forall x | x in w
      ensures GroupRef(w[x]) != Some(o)
    {
      assert RefsOk(v, v[x]);
    }
  }

  lemma HostGoneIsSound(w: View, next: Id, o: Id, e: Edit)
    requires Plannable(w, next) && o in w.data && w.data[o].HostP? && GoneWrites(w, o, map[], e)
    ensures Sound(w.data, e)
  {
    var a, v := GoneParts(w, next, o, map[]), Apply(w.data, e);
    assert forall x :: x in v ==> x in w.data && v[x] == w.data[x];
    hide Apply, Assembled, Makes, LinksOk, GoneWrites, DropSsh, DropTelnet, DropWebDav, WellFormed;
    assert Closed(w.data) by { PlannableIsClosed(w, next); }
    GoneIsAssembled(w, next, o, map[]);
    GoneMakes(w, next, o, map[], e);
    HostHoldsNobody(w.data, o, v, a);
    AssemblyKeepsWellFormed(w.data, a, v);
  }

  lemma PlannableIsClosed(w: View, next: Id)
    requires Plannable(w, next)
    ensures Closed(w.data)
  {
  }

  /** Deleting a host takes its configs, their inline identities and the SSH
      key only it used, and leaves everything else whole. */
  lemma DeleteHostIsSound(w: View, next: Id, externalId: string)
    requires Plannable(w, next)
    ensures Sound(w.data, PlanDeleteHost(w, next, externalId))
  {
    hide Plannable, DropSsh, DropTelnet, DropWebDav, WellFormed;
    var e := PlanDeleteHost(w, next, externalId);
    match HostByExternalId(w, externalId)
    case None =>
      assert Apply(w.data, e) == w.data;
      assert WellFormed(w.data) by { PlannableIsWellFormed(w, next); }
    case Some(id) =>
      HostGoneIsSound(w, next, id, e);
  }

  lemma PlannableIsWellFormed(w: View, next: Id)
    requires Plannable(w, next)
    ensures WellFormed(w.data)
  {
  }

  predicate OwnParent(v: Vault, g: Option<Id>) {
    g.Some? && g.value in v && GroupRef(v[g.value]) == g
  }

  /** The members of group `g`, each moved to `g`'s parent. */
  function LiftedMembers(v: Vault, g: Id): map<Id, Payload>
    requires g in v
  {
    map id | id in v && GroupRef(v[id]) == Some(g) :: Lifted(v[id], g, GroupRef(v[g]))
  }

  lemma MembersFit(v: Vault, g: Id)
    requires Closed(v) && g in v && v[g].GroupP? && !OwnParent(v, Some(g))
    ensures forall x :: x in LiftedMembers(v, g) ==>
              x in v && x != g && IsOwner(v[x]) && KeepsConfigs(v[x], LiftedMembers(v, g)[x])
  {
  }

  /** What becomes of group `g` and its members. */
  ghost predicate GroupLeaves(v: Vault, g: Id, w: Vault, a: Assembly) {
    && g in v && v[g].GroupP? && !OwnParent(v, Some(g))
    && a.o == g && a.owner.None? && a.tags == map[] && a.moved == LiftedMembers(v, g)
    && forall k :: 0 <= k < |a.swaps| ==> a.swaps[k].puts == map[]
  }

  /** The parent of the group stays a group, even if it was also its child. */
  lemma ParentStands(v: Vault, g: Id, w: Vault, a: Assembly)
    requires Assembled(v, a) && Makes(v, a, w) && GroupLeaves(v, g, w, a)
    ensures Points(w, GroupRef(v[g]), GroupS)
  {
    var p := GroupRef(v[g]);
    if p.Some? {
      assert Points(v, p, GroupS) by { assert RefsOk(v, v[g]); }
      if p.value in a.moved {
        assert ExtrasMade(a, w);
      } else {
        hide Assembled, Makes;
        BystanderStands(v, a, w, p.value);
      }
    }
  }

  lemma NobodyStays(v: Vault, g: Id, w: Vault, a: Assembly, x: Id)
    requires Makes(v, a, w) && GroupLeaves(v, g, w, a) && x in w
    ensures GroupRef(w[x]) != Some(g)
  {
    if x !in a.moved { assert !PutBySlot(a, x) && !DroppedBySlot(a, x); }
  }

  /** What is left to say once the parent stands and nobody stays. */
  lemma GroupLinks(v: Vault, g: Id, w: Vault, a: Assembly)
    requires GroupLeaves(v, g, w, a) && Points(w, GroupRef(v[g]), GroupS)
    requires forall x :: x in w ==> GroupRef(w[x]) != Some(g)
    ensures LinksOk(v, a, w)
  {
    hide Points;
  }

  lemma GroupIsThere(v: Vault, g: Id, w: Vault, a: Assembly)
    requires GroupLeaves(v, g, w, a)
    ensures g in v
  {
  }

  /** After the delete nobody sits in the group, and whoever did sits in its parent. */
  lemma MembersLeave(v: Vault, g: Id, w: Vault, a: Assembly)
    requires Assembled(v, a) && Makes(v, a, w) && GroupLeaves(v, g, w, a)
    ensures LinksOk(v, a, w)
  {
    hide *;
    GroupIsThere(v, g, w, a);
    ParentStands(v, g, w, a);
    forall x | x in w
      ensures GroupRef(w[x]) != Some(g)
    {
      NobodyStays(v, g, w, a, x);
    }
    GroupLinks(v, g, w, a);
  }

  lemma GroupIsLeaving(w: View, next: Id, g: Id, after: Vault)
    requires g in w.data && w.data[g].GroupP? && !OwnParent(w.data, Some(g))
    ensures GroupLeaves(w.data, g, after, GoneParts(w, next, g, LiftedMembers(w.data, g)))
    ensures IsOwner(w.data[g])
  {
    hide OwnParent, DropSsh, DropTelnet, DropWebDav, LiftedMembers;
  }

  lemma IsSound(v: Vault, e: Edit)
    requires e.puts.Keys !! e.drops && WellFormed(Apply(v, e))
    ensures Sound(v, e)
  {
  }

  lemma GroupGoneIsSound(w: View, next: Id, g: Id, e: Edit)
    requires Plannable(w, next) && g in w.data && w.data[g].GroupP? && !OwnParent(w.data, Some(g))
    requires GoneWrites(w, g, LiftedMembers(w.data, g), e)
    ensures Sound(w.data, e)
  {
    hide *;
    var moved := LiftedMembers(w.data, g);
    var a, v := GoneParts(w, next, g, moved), Apply(w.data, e);
    PlannableIsClosed(w, next);
    PlannableIsWellFormed(w, next);
    MembersFit(w.data, g);
    GroupIsLeaving(w, next, g, v);
    GoneIsAssembled(w, next, g, moved);
    GoneMakes(w, next, g, moved, e);
    MembersLeave(w.data, g, v, a);
    AssemblyKeepsWellFormed(w.data, a, v);
    IsSound(w.data, e);
  }

  /** Deleting a group is sound exactly when the group is not its own parent:
      its members move up, its configs and logins go, nothing dangles. A group
      that is its own parent would be both changed and deleted. */
  lemma DeleteGroupIsSoundExactly(w: View, next: Id, externalId: string)
    requires Plannable(w, next)
    ensures Sound(w.data, PlanDeleteGroup(w, next, externalId)) <==>
        !OwnParent(w.data, GroupByExternalId(w, externalId))
  {
    var e := PlanDeleteGroup(w, next, externalId);
    match GroupByExternalId(w, externalId)
    case None => assert Apply(w.data, e) == w.data;
    case Some(g) =>
      if OwnParent(w.data, Some(g)) {
        assert g in e.puts && g in e.drops;
      } else {
        assert e.puts == LiftedMembers(w.data, g);
        GroupGoneIsSound(w, next, g, e);
      }
  }

  /** Even read as one edit, deleting a group that is its own parent strands every other member. */
  lemma OwnParentStrandsMembers(w: View, next: Id, externalId: string, x: Id)
    requires Plannable(w, next) && OwnParent(w.data, GroupByExternalId(w, externalId))
    requires x in w.data && GroupRef(w.data[x]) == GroupByExternalId(w, externalId) && x != GroupRef(w.data[x]).value
    ensures
      var after := Apply(w.data, PlanDeleteGroup(w, next, externalId));
      x in after && GroupRef(after[x]).Some? && GroupRef(after[x]).value !in after
  {
    var g, e := GroupByExternalId(w, externalId).value, PlanDeleteGroup(w, next, externalId);
    assert RefsOk(w.data, w.data[g]);
    DropsNoMember(w, next, g, x);
    assert e.puts[x] == Lifted(w.data[x], g, Some(g));
  }

  lemma DropsNoMember(w: View, next: Id, g: Id, x: Id)
    requires Plannable(w, next) && g in w.data && w.data[g].GroupP? && x in w.data && GroupRef(w.data[x]).Some?
    ensures x !in DropSsh(w, SlotRef(w.data[g], 0)) + DropTelnet(w, SlotRef(w.data[g], 1))
  {
    GoneIsAssembled(w, next, g, map[]);
    GoneSlots(w, next, g, map[], x);
    GoneDropsNoOwner(w, next, g, map[], x);
  }

  /** A sound group delete loses no host and no other group: each is as it was,
      or sits in the parent of the group it sat in. */
  lemma DeleteGroupKeepsMembers(w: View, next: Id, externalId: string, x: Id)
    requires Plannable(w, next) && GroupByExternalId(w, externalId).Some?
    requires x in w.data && IsOwner(w.data[x]) && Some(x) != GroupByExternalId(w, externalId)
    ensures
      var g := GroupByExternalId(w, externalId).value;
      var after := Apply(w.data, PlanDeleteGroup(w, next, externalId));
      && x in after
      && after[x] == Regrouped(w.data[x],
        if GroupRef(w.data[x]) == Some(g) then GroupRef(w.data[g]) else GroupRef(w.data[x]))
  {
    var g := GroupByExternalId(w, externalId).value;
    GoneIsAssembled(w, next, g, map[]);
    GoneSlots(w, next, g, map[], x);
    GoneDropsNoOwner(w, next, g, map[], x);
  }
}
