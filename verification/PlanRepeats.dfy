/** Planning is idempotent: the same request planned again on the vault it
    produced writes what is already there, and names stay unique. */
module PlanRepeats {
  import opened Wrappers
  import opened Schema
  import opened VaultGraph
  import opened BridgePlans
  import opened PlanSwaps
  import opened PlanAssembly
  import opened PlanTheorems
  import opened Text

  // ----- names -----

  ghost predicate HostNamesUnique(v: Vault) {
    forall x, y :: x in v && y in v && v[x].HostP? && v[y].HostP? && v[x].host.externalId.Some? &&
                   v[x].host.externalId == v[y].host.externalId
      ==> x == y
  }

  ghost predicate GroupNamesUnique(v: Vault) {
    forall x, y :: x in v && y in v && v[x].GroupP? && v[y].GroupP? && v[x].group.externalId.Some? &&
                   v[x].group.externalId == v[y].group.externalId
      ==> x == y
  }

  ghost predicate TagNamesUnique(v: Vault, fold: string -> string) {
    forall x, y :: x in v && y in v && v[x].TagP? && v[y].TagP? &&
                   fold(Trim(v[x].tag.name)) == fold(Trim(v[y].tag.name))
      ==> x == y
  }

  /** External ids name one host or group each, and no two tags differ only in case or outer space. */
  ghost predicate NamesUnique(v: Vault, fold: string -> string) {
    HostNamesUnique(v) && GroupNamesUnique(v) && TagNamesUnique(v, fold)
  }

  // ----- slots -----

  /** Everything put has landed, and keychain identities are as they were. */
  ghost predicate Took(v: Vault, puts: map<Id, Payload>, w: Vault) {
    && (forall x :: x in puts ==> x in w && w[x] == puts[x])
    && (forall i :: i in v && v[i].IdentityP? && v[i].identity.isVisible ==> i in w && w[i] == v[i])
  }

  lemma LoginRepeats(w: View, next: Id, inline: Option<Id>, c: Credentials, name: string, later: View, next2: Id)
    requires Plannable(w, next) && (inline.Some? ==> inline.value in w.data && IsInline(w.data[inline.value]))
    requires var (e, id) := PlanLogin(w, next, inline, c, name); Took(w.data, e.puts, later.data)
    ensures
      var (e, id) := PlanLogin(w, next, inline, c, name);
      PlanLogin(later, next2, Some(id), c, name) == (Edit(e.puts, {}, next2), id)
  {
    var (e, id) := PlanLogin(w, next, inline, c, name);
    if inline.Some? { assert RefsOk(w.data, w.data[inline.value]); }
    if c.key.Some? {
      KeyedLogin(w, next, inline, c, name);
      assert id in e.puts && e.puts[id].IdentityP?;
      var was := if inline.Some? then w.data[inline.value].identity else NewIdentity();
      var next1 := if inline.Some? then next else next + 1;
      var (k, keyId) := PlanKey(w, next1, was.sshKeyId, c.key.value, name);
      assert k.puts == map[keyId := KeyPayload(c.key.value, name)];
      assert id != keyId;
      assert e.puts == map[keyId := KeyPayload(c.key.value, name), id := e.puts[id]];
    }
  }

  lemma IdentityRepeats(
    w: View, next: Id, prior: Option<Id>, creds: Option<Credentials>, name: string, later: View, next2: Id)
    requires Plannable(w, next)
    requires prior.Some? ==> prior.value in w.data && w.data[prior.value].IdentityP?
    requires var (e, now) := PlanIdentity(w, next, prior, creds, name); Took(w.data, e.puts, later.data)
    ensures
      var (e, now) := PlanIdentity(w, next, prior, creds, name);
      PlanIdentity(later, next2, now, creds, name) == (Edit(e.puts, {}, next2), now)
  {
    if creds.Some? && !creds.value.IsEmpty() {
      var inline := InlineIdentity(w, prior);
      var (e, id) := PlanLogin(w, next, inline, creds.value, name);
      assert id in e.puts && IsInline(e.puts[id]);
      assert InlineIdentity(later, Some(id)) == Some(id);
      LoginRepeats(w, next, inline, creds.value, name, later, next2);
    }
  }

  lemma PriorIdentity(w: View, next: Id, prior: Option<Id>, sort: Sort)
    requires Plannable(w, next) && Points(w.data, prior, sort)
    ensures prior.Some? ==> prior.value in w.data && Points(w.data, IdentityRef(w.data[prior.value]), IdentityS)
  {
    if prior.Some? { assert RefsOk(w.data, w.data[prior.value]); }
  }

  lemma SshRepeats(
    w: View, next: Id, prior: Option<Id>, wanted: bool, section: Option<Section>, name: string, later: View, next2: Id)
    requires Plannable(w, next) && Points(w.data, prior, SshS)
    requires Took(w.data, SshSwap(w, next, prior, wanted, section, name).puts, later.data)
    ensures
      var s := SshSwap(w, next, prior, wanted, section, name);
      PlanSshSlot(later, next2, s.now, wanted, section, name) == (Edit(s.puts, {}, next2), s.now)
  {
    hide Plannable, WellFormed, PlanIdentity, Took;
    PriorIdentity(w, next, prior, SshS);
    if wanted {
      var creds := if section.Some? then section.value.credentials else None;
      var lo, e, identity, cfg := FilledAround(w, next, prior, SshS, creds, name, later, next2);
      var s := SshSwap(w, next, prior, wanted, section, name);
      TookPart(w.data, s.puts, e.puts, s.now.value, later.data);
      IdentityRepeats(w, lo, cfg, creds, name, later, next2);
    }
  }

  lemma TelnetRepeats(
    w: View, next: Id, prior: Option<Id>, section: Option<Section>, name: string, later: View, next2: Id)
    requires Plannable(w, next) && Points(w.data, prior, TelnetS)
    requires Took(w.data, TelnetSwap(w, next, prior, section, name).puts, later.data)
    ensures
      var s := TelnetSwap(w, next, prior, section, name);
      PlanTelnetSlot(later, next2, s.now, section, name) == (Edit(s.puts, {}, next2), s.now)
  {
    hide Plannable, WellFormed, PlanIdentity, Took;
    PriorIdentity(w, next, prior, TelnetS);
    if section.Some? {
      var creds := section.value.credentials;
      var lo, e, identity, cfg := FilledAround(w, next, prior, TelnetS, creds, name, later, next2);
      var s := TelnetSwap(w, next, prior, section, name);
      TookPart(w.data, s.puts, e.puts, s.now.value, later.data);
      IdentityRepeats(w, lo, cfg, creds, name, later, next2);
    }
  }

  /** The login planned for a slot that is filled. */
  lemma FilledAround(
    w: View, next: Id, prior: Option<Id>, sort: Sort, creds: Option<Credentials>, name: string, later: View, next2: Id)
    returns (lo: Id, e: Edit, identity: Option<Id>, was: Option<Id>)
    requires Plannable(w, next) && Points(w.data, prior, sort) && sort in {SshS, TelnetS}
    ensures was == if prior.Some? then IdentityRef(w.data[prior.value]) else None
    ensures lo == (if prior.Some? then next else next + 1) && Plannable(w, lo)
    ensures was.Some? ==> was.value in w.data && w.data[was.value].IdentityP?
    ensures (e, identity) == PlanIdentity(w, lo, was, creds, name)
    ensures (if prior.Some? then prior.value else next) !in e.puts
  {
    was := if prior.Some? then IdentityRef(w.data[prior.value]) else None;
    lo := if prior.Some? then next else next + 1;
    var planned := PlanIdentity(w, lo, was, creds, name);
    e, identity := planned.0, planned.1;
    PriorIdentity(w, next, prior, sort);
    PlannableLater(w, next, lo);
    ConfigMissesLogin(w, next, prior, sort, creds, name);
  }

  lemma TookPart(v: Vault, puts: map<Id, Payload>, part: map<Id, Payload>, extra: Id, w: Vault)
    requires Took(v, puts, w) && extra !in part && extra in puts && puts == part[extra := puts[extra]]
    ensures Took(v, part, w) && extra in w && w[extra] == puts[extra]
  {
    assert forall x :: x in part ==> x in puts && puts[x] == part[x];
  }

  /** The config's id is not among the ids its login puts. */
  lemma ConfigMissesLogin(w: View, next: Id, prior: Option<Id>, sort: Sort, creds: Option<Credentials>, name: string)
    requires Plannable(w, next) && Points(w.data, prior, sort) && sort in {SshS, TelnetS}
    ensures
      var i := if prior.Some? then IdentityRef(w.data[prior.value]) else None;
      var (e, _) := PlanIdentity(w, if prior.Some? then next else next + 1, i, creds, name);
      (if prior.Some? then prior.value else next) !in e.puts
  {
    if prior.Some? { assert RefsOk(w.data, w.data[prior.value]); }
    var i := if prior.Some? then IdentityRef(w.data[prior.value]) else None;
    var lo := if prior.Some? then next else next + 1;
    var (e, now) := PlanIdentity(w, lo, i, creds, name);
    IdentityIsLogin(w, lo, i, creds, name);
    assert InlineAt(w.data, prior) == InlineIdentity(w, i);
    LoginApart(w, prior, sort, lo, e, now, next);
  }

  // ----- tags -----

  lemma TagFound(w: View, fold: string -> string, t: string, id: Id)
    requires w.Valid() && TagNamesUnique(w.data, fold) && IsTagNamed(w.data, fold, fold(Trim(t)), id)
    ensures TagByName(w, fold, t) == Some(id)
  {
  }

  lemma {:induction false} TagsRepeat(w: View, next: Id, fold: string -> string, tags: seq<string>, later: View,
      next2: Id)
    requires w.Valid() && later.Valid() && TagNamesUnique(later.data, fold)
    requires forall x :: x in PlanTags(w, next, fold, tags).0.puts ==>
               x in later.data && later.data[x] == PlanTags(w, next, fold, tags).0.puts[x]
    requires forall x :: x in w.data && w.data[x].TagP? ==> x in later.data && later.data[x] == w.data[x]
    ensures
      var (e, ids, seen) := PlanTags(w, next, fold, tags);
      PlanTags(later, next2, fold, tags) == (Start(next2), ids, seen)
  {
    if tags != [] {
      var shorter, t := tags[..|tags| - 1], Trim(tags[|tags| - 1]);
      var (e, ids, seen) := PlanTags(w, next, fold, shorter);
      TagsFit(w, next, fold, shorter);
      assert forall x :: x in e.puts ==> x in PlanTags(w, next, fold, tags).0.puts &&
                                         PlanTags(w, next, fold, tags).0.puts[x] == e.puts[x];
      TagsRepeat(w, next, fold, shorter, later, next2);
      if !(t == "" || fold(t) in seen) {
        TrimTwice(tags[|tags| - 1]);
        match TagByName(w, fold, t)
        case Some(id) => TagFound(later, fold, t, id);
        case None =>
          assert e.next in PlanTags(w, next, fold, tags).0.puts;
          TagFound(later, fold, t, e.next);
      }
    }
  }

  predicate AllSeen(tags: map<Id, Payload>, fold: string -> string, seen: set<string>) {
    forall x :: x in tags ==> tags[x].TagP? && fold(Trim(tags[x].tag.name)) in seen
  }

  ghost predicate NewToVault(v: Vault, tags: map<Id, Payload>, fold: string -> string) {
    forall x, y :: x in tags && tags[x].TagP? && y in v && v[y].TagP?
      ==> fold(Trim(tags[x].tag.name)) != fold(Trim(v[y].tag.name))
  }

  /** New tags differ from each other and from every known tag. */
  lemma {:induction false} NewTagsDiffer(w: View, next: Id, fold: string -> string, tags: seq<string>)
    requires w.Valid()
    ensures
      var (e, _, seen) := PlanTags(w, next, fold, tags);
      AllSeen(e.puts, fold, seen) && NewToVault(w.data, e.puts, fold) && TagNamesUnique(e.puts, fold)
  {
    if tags != [] {
      var shorter, t := tags[..|tags| - 1], Trim(tags[|tags| - 1]);
      var (e, ids, seen) := PlanTags(w, next, fold, shorter);
      NewTagsDiffer(w, next, fold, shorter);
      TrimTwice(tags[|tags| - 1]);
      if t != "" && fold(t) !in seen && TagByName(w, fold, t).None? {
        assert forall y :: y in w.data && w.data[y].TagP? ==> !IsTagNamed(w.data, fold, fold(t), y);
        OneMoreTag(w.data, e.puts, e.next, t, fold, seen);
      }
    }
  }

  lemma OneMoreTag(v: Vault, tags: map<Id, Payload>, id: Id, t: string, fold: string -> string, seen: set<string>)
    requires AllSeen(tags, fold, seen) && NewToVault(v, tags, fold) && TagNamesUnique(tags, fold)
    requires Trim(t) == t && fold(t) !in seen && forall y :: y in v && v[y].TagP? ==>
        fold(Trim(v[y].tag.name)) != fold(t)
    ensures
      var more := tags[id := TagP(Tag(t, None))];
      AllSeen(more, fold, seen + {fold(t)}) && NewToVault(v, more, fold) && TagNamesUnique(more, fold)
  {
  }

  // ----- what a plan writes -----

  lemma SlotPutsSorts(v: Vault, s: Swap, x: Id)
    requires Swapped(v, s) && s.sort in {SshS, TelnetS, WebDavS} && x in s.puts
    ensures SortOf(s.puts[x]) !in {HostS, GroupS, TagS}
  {
  }

  /** A host, group or tag of the new vault is the plan's owner, one of its new tags, or as it was. */
  lemma AfterPlan(v: Vault, p: Parts, e: Edit, x: Id)
    requires Writes(e, p.o, p.owner, p.ssh, p.telnet, p.tags) && TwoSlots(v, p.ssh, p.telnet)
    requires x in Apply(v, e) && SortOf(Apply(v, e)[x]) in {HostS, GroupS, TagS}
    ensures
      || (x == p.o && Apply(v, e)[x] == p.owner)
      || (x in p.tags && Apply(v, e)[x] == p.tags[x])
      || (x in v && Apply(v, e)[x] == v[x])
  {
    hide Swapped;
    if x in p.ssh.puts { SlotPutsSorts(v, p.ssh, x); }
    if x in p.telnet.puts { SlotPutsSorts(v, p.telnet, x); }
  }

  lemma HostNameFound(w: View, externalId: string, id: Id)
    requires w.Valid() && HostNamesUnique(w.data) && IsHostNamed(w.data, externalId, id)
    ensures HostByExternalId(w, externalId) == Some(id)
  {
  }

  lemma GroupNameFound(w: View, externalId: string, id: Id)
    requires w.Valid() && GroupNamesUnique(w.data) && IsGroupNamed(w.data, externalId, id)
    ensures GroupByExternalId(w, externalId) == Some(id)
  {
  }

  /** The facts about a host plan that the theorems below rest on. */
  ghost predicate HostPlanned(w: View, next: Id, externalId: string, req: HostRequest, fold: string -> string,
      e: Edit, p: Parts)
  {
    && NamedGroup(w, req.group).Ok? && p == HostParts(w, next, externalId, req, fold)
    && PlanHost(w, next, externalId, req, fold) == Ok(e)
    && PartsOk(w.data, p) && Writes(e, p.o, p.owner, p.ssh, p.telnet, p.tags)
    && Makes(w.data, p.Assembly(), Apply(w.data, e))
  }

  lemma HostPlanFacts(w: View, next: Id, externalId: string, req: HostRequest, fold: string -> string)
      returns (e: Edit, p: Parts)
    requires Plannable(w, next) && NoTelnetKey(req.telnet) && PlanHost(w, next, externalId, req, fold).Ok?
    ensures HostPlanned(w, next, externalId, req, fold, e, p)
  {
    hide HostParts, PlanHost, Plannable, PartsOk, WritesApart, Writes, Makes;
    e := PlanHost(w, next, externalId, req, fold).value;
    assert w.Valid() by { PlannableIsValid(w, next); }
    HostWrites(w, next, externalId, req, fold);
    HostPartsOk(w, next, externalId, req, fold);
    p := HostParts(w, next, externalId, req, fold);
    PartsMake(w.data, p, e);
  }

  lemma PlannableIsValid(w: View, next: Id)
    requires Plannable(w, next)
    ensures w.Valid()
  {
  }

  lemma PartsMake(v: Vault, p: Parts, e: Edit)
    requires PartsOk(v, p) && Writes(e, p.o, p.owner, p.ssh, p.telnet, p.tags)
    ensures Makes(v, p.Assembly(), Apply(v, e))
  {
    hide Assembled, TwoSlots, Writes, WritesApart, Makes;
    WritesAreApart(v, p.o, p.owner, p.ssh, p.telnet, p.webdav, p.tags);
    EditsMakeAssembly(v, p.o, p.owner, p.ssh, p.telnet, p.webdav, p.tags, e);
  }

  predicate AsBefore(v: Vault, w: Vault, x: Id) { x in v && x in w && w[x] == v[x] }

  /** Every host, group or tag of `after` is `o`, one of `tags`, or as before. */
  ghost predicate NamesFrom(v: Vault, after: Vault, o: Id, tags: map<Id, Payload>) {
    forall x :: x in after && SortOf(after[x]) in {HostS, GroupS, TagS} && x != o ==>
      (x in tags && after[x] == tags[x]) || AsBefore(v, after, x)
  }

  lemma TagNamesKept(v: Vault, after: Vault, o: Id, tags: map<Id, Payload>, fold: string -> string)
    requires NamesFrom(v, after, o, tags) && (o in after ==> IsOwner(after[o]))
    requires TagNamesUnique(v, fold) && NewToVault(v, tags, fold) && TagNamesUnique(tags, fold)
    ensures TagNamesUnique(after, fold)
  {
    forall x, y | x in after && y in after && after[x].TagP? && after[y].TagP? &&
                  fold(Trim(after[x].tag.name)) == fold(Trim(after[y].tag.name))
      ensures x == y
    {
      assert x != o && y != o;
    }
  }

  lemma HostNamesKept(v: Vault, after: Vault, o: Id, tags: map<Id, Payload>)
    requires NamesFrom(v, after, o, tags) && (forall t :: t in tags ==> tags[t].TagP?) && HostNamesUnique(v)
    requires o in after && after[o].HostP? ==>
      forall y :: y != o && y in v && v[y].HostP? && v[y].host.externalId.Some? ==>
        v[y].host.externalId != after[o].host.externalId
    ensures HostNamesUnique(after)
  {
  }

  lemma GroupNamesKept(v: Vault, after: Vault, o: Id, tags: map<Id, Payload>)
    requires NamesFrom(v, after, o, tags) && (forall t :: t in tags ==> tags[t].TagP?) && GroupNamesUnique(v)
    requires o in after && after[o].GroupP? ==>
      forall y :: y != o && y in v && v[y].GroupP? && v[y].group.externalId.Some? ==>
        v[y].group.externalId != after[o].group.externalId
    ensures GroupNamesUnique(after)
  {
  }

  lemma OnlyHostNamed(w: View, externalId: string, o: Id)
    requires w.Valid() && HostNamesUnique(w.data)
    requires HostByExternalId(w, externalId) == Some(o) || HostByExternalId(w, externalId) == None
    ensures forall y :: y != o && y in w.data && w.data[y].HostP? ==> w.data[y].host.externalId != Some(externalId)
  {
    forall y | y != o && y in w.data && w.data[y].HostP? && w.data[y].host.externalId == Some(externalId)
      ensures false
    {
      assert IsHostNamed(w.data, externalId, y);
    }
  }

  lemma OnlyGroupNamed(w: View, externalId: string, o: Id)
    requires w.Valid() && GroupNamesUnique(w.data)
    requires GroupByExternalId(w, externalId) == Some(o) || GroupByExternalId(w, externalId) == None
    ensures forall y :: y != o && y in w.data && w.data[y].GroupP? ==> w.data[y].group.externalId != Some(externalId)
  {
    forall y | y != o && y in w.data && w.data[y].GroupP? && w.data[y].group.externalId == Some(externalId)
      ensures false
    {
      assert IsGroupNamed(w.data, externalId, y);
    }
  }

  lemma PartsNamesFrom(v: Vault, p: Parts, e: Edit)
    requires Writes(e, p.o, p.owner, p.ssh, p.telnet, p.tags) && TwoSlots(v, p.ssh, p.telnet)
    ensures NamesFrom(v, Apply(v, e), p.o, p.tags)
  {
    forall x | x in Apply(v, e) && SortOf(Apply(v, e)[x]) in {HostS, GroupS, TagS} && x != p.o
      ensures (x in p.tags && Apply(v, e)[x] == p.tags[x]) || AsBefore(v, Apply(v, e), x)
    {
      AfterPlan(v, p, e, x);
    }
  }

  /** A host upsert keeps external ids and folded tag names unique. */
  lemma HostPlanKeepsNames(w: View, next: Id, externalId: string, req: HostRequest, fold: string -> string)
    requires Plannable(w, next) && NoTelnetKey(req.telnet) && NamesUnique(w.data, fold)
    requires PlanHost(w, next, externalId, req, fold).Ok?
    ensures NamesUnique(Apply(w.data, PlanHost(w, next, externalId, req, fold).value), fold)
  {
    var e, p := HostPlanFacts(w, next, externalId, req, fold);
    var after := Apply(w.data, e);
    NewTagsDiffer(w, p.telnet.hi, fold, req.tags);
    OnlyHostNamed(w, externalId, p.o);
    PartsNamesFrom(w.data, p, e);
    assert p.o in after ==> after[p.o] == p.owner;
    hide PartsOk, Makes, Plannable, PlanTags, Apply, PlanHost, Writes, HostByExternalId, SshSwap, TelnetSwap,
      NamedGroup;
    HostNamesKept(w.data, after, p.o, p.tags);
    GroupNamesKept(w.data, after, p.o, p.tags);
    TagNamesKept(w.data, after, p.o, p.tags, fold);
  }

  // ----- planning again -----

  /** The edit writes what is already there, drops nothing and draws no id. */
  predicate WritesNothingNew(v: Vault, e: Edit, next: Id) {
    e.drops == {} && e.next == next && forall x :: x in e.puts ==> x in v && v[x] == e.puts[x]
  }

  lemma SlotsTook(v: Vault, p: Parts, w: Vault)
    requires PartsOk(v, p) && Makes(v, p.Assembly(), w)
    ensures Took(v, p.ssh.puts, w) && Took(v, p.telnet.puts, w)
    ensures p.o in w && w[p.o] == p.owner
    ensures forall t :: t in p.tags ==> t in w && w[t] == p.tags[t]
  {
    assert p.o in w && w[p.o] == p.owner && forall t :: t in p.tags ==> t in w && w[t] == p.tags[t] by {
      assert ExtrasMade(p.Assembly(), w);
    }
    hide Assembled, Makes, TwoSlots;
    var a := p.Assembly();
    AllVisibleStand(v, a, w);
    SlotLands(v, a, w, 0) by { AssembledHasSlots(v, a); }
    SlotLands(v, a, w, 1) by { AssembledHasSlots(v, a); }
    assert a.swaps[0] == p.ssh && a.swaps[1] == p.telnet;
  }

  lemma AssembledHasSlots(v: Vault, a: Assembly)
    requires Assembled(v, a)
    ensures |a.swaps| == SLOTS
  {
  }

  lemma OthersAsBefore(v: Vault, p: Parts, w: Vault, x: Id)
    requires PartsOk(v, p) && Makes(v, p.Assembly(), w) && x in v && x != p.o && SortOf(v[x]) in {HostS, GroupS, TagS}
    ensures AsBefore(v, w, x)
  {
    hide Assembled, Makes, TwoSlots;
    BystanderStands(v, p.Assembly(), w, x);
  }

  /** Group names resolve as before. */
  lemma NamedGroupRepeats(w: View, name: Option<string>, later: View)
    requires later.Valid() && GroupNamesUnique(later.data) && NamedGroup(w, name).Ok?
    requires NamedGroup(w, name).value.Some? ==> AsBefore(w.data, later.data, NamedGroup(w, name).value.value)
    ensures NamedGroup(later, name) == NamedGroup(w, name)
  {
    var g := NamedGroup(w, name).value;
    if g.Some? {
      assert IsGroupNamed(w.data, Trimmed(name).value, g.value);
      GroupNameFound(later, Trimmed(name).value, g.value);
    }
  }

  /** Both sections of a request, planned again. */
  lemma SectionsRepeat(
    w: View, next: Id, p: Parts, wanted: bool, ssh: Option<Section>, telnet: Option<Section>, name: string,
      later: View, next2: Id)
    requires Plannable(w, next) && NoTelnetKey(telnet)
    requires Points(w.data, p.ssh.prior, SshS) && Points(w.data, p.telnet.prior, TelnetS)
    requires p.ssh == SshSwap(w, next, p.ssh.prior, wanted, ssh, name)
    requires p.telnet == TelnetSwap(w, p.ssh.hi, p.telnet.prior, telnet, name) && next <= p.ssh.hi
    requires Took(w.data, p.ssh.puts, later.data) && Took(w.data, p.telnet.puts, later.data)
    ensures PlanSshSlot(later, next2, p.ssh.now, wanted, ssh, name) == (Edit(p.ssh.puts, {}, next2), p.ssh.now)
    ensures PlanTelnetSlot(later, next2, p.telnet.now, telnet, name) == (Edit(p.telnet.puts, {}, next2), p.telnet.now)
  {
    hide Plannable, SshSwap, TelnetSwap, Took, PlanSshSlot, PlanTelnetSlot;
    SshRepeats(w, next, p.ssh.prior, wanted, ssh, name, later, next2);
    PlannableLater(w, next, p.ssh.hi);
    TelnetRepeats(w, p.ssh.hi, p.telnet.prior, telnet, name, later, next2);
  }

  lemma PartsPoint(v: Vault, p: Parts)
    requires PartsOk(v, p)
    ensures Points(v, p.ssh.prior, SshS) && Points(v, p.telnet.prior, TelnetS) && p.ssh.lo <= p.ssh.hi
    ensures GroupRef(p.owner) != Some(p.o) && Points(v, GroupRef(p.owner), GroupS)
  {
    hide Assembled, Swapped;
    PriorPoints(v, p.Assembly(), 0);
    PriorPoints(v, p.Assembly(), 1);
    assert p.Assembly().swaps[0] == p.ssh && p.Assembly().swaps[1] == p.telnet;
  }

  lemma PartsOwnerIsNoTag(v: Vault, p: Parts, t: Id)
    requires PartsOk(v, p) && t in v && v[t].TagP?
    ensures t != p.o
  {
    hide Assembled;
    OwnerIsNoTag(v, p.Assembly(), t);
  }

  /** The tags of a host request, planned again. */
  lemma HostTagsRepeat(w: View, p: Parts, fold: string -> string, tags: seq<string>, later: View, next2: Id)
    requires w.Valid() && later.Valid() && TagNamesUnique(later.data, fold) && p.owner.HostP?
    requires PartsOk(w.data, p) && Makes(w.data, p.Assembly(), later.data)
    requires p.tags == PlanTags(w, p.telnet.hi, fold, tags).0.puts
    ensures PlanTags(later, next2, fold, tags) ==
      (Start(next2), PlanTags(w, p.telnet.hi, fold, tags).1, PlanTags(w, p.telnet.hi, fold, tags).2)
  {
    hide PartsOk, Makes, Assembled, PlanTags;
    SlotsTook(w.data, p, later.data);
    forall x | x in w.data && w.data[x].TagP?
      ensures x in later.data && later.data[x] == w.data[x]
    {
      PartsOwnerIsNoTag(w.data, p, x);
      OthersAsBefore(w.data, p, later.data, x);
    }
    TagsRepeat(w, p.telnet.hi, fold, tags, later, next2);
  }

  /** Planning the same host request on the vault that the first plan produced,
      in whatever order it yields its entities, changes no payload, drops
      nothing and invents no id. */
  lemma HostPlanRepeats(w: View, next: Id, externalId: string, req: HostRequest, fold: string -> string, later: View)
    requires Plannable(w, next) && NoTelnetKey(req.telnet) && NamesUnique(w.data, fold)
    requires PlanHost(w, next, externalId, req, fold).Ok?
    requires later.Valid() && later.data == Apply(w.data, PlanHost(w, next, externalId, req, fold).value)
    ensures
      var e := PlanHost(w, next, externalId, req, fold).value;
      var again := PlanHost(later, e.next, externalId, req, fold);
      again.Ok? && WritesNothingNew(later.data, again.value, e.next)
  {
    var e, p := HostPlanFacts(w, next, externalId, req, fold);
    HostPlanKeepsNames(w, next, externalId, req, fold);
    HostPartsSlots(w, next, externalId, req, fold, p);
    assert p.owner == HostP(HostAs(HostNow(w, p.o), externalId, req, NamedGroup(w, req.group).value, p.ssh.now,
      p.telnet.now,
                                   PlanTags(w, p.telnet.hi, fold, req.tags).1));
    assert p.tags == PlanTags(w, p.telnet.hi, fold, req.tags).0.puts;
    assert later.Valid() && w.Valid();
    hide HostParts, PartsOk, Makes, Plannable, PlanTags, Apply, PlanHost, HostByExternalId, SshSwap, TelnetSwap,
      NamedGroup, Took;
    PartsPoint(w.data, p);
    SlotsTook(w.data, p, later.data);
    if GroupRef(p.owner).Some? { OthersAsBefore(w.data, p, later.data, GroupRef(p.owner).value); }
    NamedGroupRepeats(w, req.group, later);
    HostNameFound(later, externalId, p.o);
    HostTagsRepeat(w, p, fold, req.tags, later, e.next);
    SectionsRepeat(w, p.ssh.lo, p, req.ssh.Some? || req.telnet.None?, req.ssh, req.telnet, HostName(req), later,
      e.next);
    SameHostAgain(w, later, e.next, externalId, req, fold, p);
  }

  lemma HostPartsSlots(w: View, next: Id, externalId: string, req: HostRequest, fold: string -> string, p: Parts)
    requires Plannable(w, next) && NamedGroup(w, req.group).Ok? && p == HostParts(w, next, externalId, req, fold)
    ensures p.ssh == SshSwap(w, p.ssh.lo, p.ssh.prior, req.ssh.Some? || req.telnet.None?, req.ssh, HostName(req))
    ensures p.telnet == TelnetSwap(w, p.ssh.hi, p.telnet.prior, req.telnet, HostName(req)) && Plannable(w, p.ssh.lo)
  {
    hide PlanSshSlot, PlanTelnetSlot, PlanTags, NamedGroup;
    PlannableLater(w, next, p.ssh.lo);
  }

  /** The second plan, put together from its parts. */
  lemma SameHostAgain(w: View, later: View, next2: Id, externalId: string, req: HostRequest, fold: string -> string,
      p: Parts)
    requires HostByExternalId(later, externalId) == Some(p.o) && p.o in later.data && later.data[p.o] == p.owner
    requires NamedGroup(later, req.group) == NamedGroup(w, req.group) && NamedGroup(w, req.group).Ok?
    requires Took(w.data, p.ssh.puts, later.data) && Took(w.data, p.telnet.puts, later.data)
    requires PlanSshSlot(later, next2, p.ssh.now, req.ssh.Some? || req.telnet.None?, req.ssh, HostName(req)) ==
               (Edit(p.ssh.puts, {}, next2), p.ssh.now)
    requires PlanTelnetSlot(later, next2, p.telnet.now, req.telnet, HostName(req)) ==
        (Edit(p.telnet.puts, {}, next2), p.telnet.now)
    requires PlanTags(later, next2, fold, req.tags) ==
      (Start(next2), PlanTags(w, p.telnet.hi, fold, req.tags).1, PlanTags(w, p.telnet.hi, fold, req.tags).2)
    requires p.owner == HostP(HostAs(HostNow(w, p.o), externalId, req, NamedGroup(w, req.group).value, p.ssh.now,
        p.telnet.now,
                                     PlanTags(w, p.telnet.hi, fold, req.tags).1))
    ensures var again := PlanHost(later, next2, externalId, req, fold);
      again.Ok? && WritesNothingNew(later.data, again.value, next2)
  {
    hide PlanSshSlot, PlanTelnetSlot, PlanTags, NamedGroup, HostByExternalId;
    var was := HostNow(later, p.o);
    assert was == p.owner.host;
    assert HostAs(was, externalId, req, NamedGroup(w, req.group).value, p.ssh.now, p.telnet.now, was.tagIds) == was;
    assert PlanHost(later, next2, externalId, req, fold) ==
      Ok(Edit(p.ssh.puts, {}, next2).Then(Edit(p.telnet.puts, {}, next2)).Then(Start(next2)).Put(p.o, p.owner));
  }

  // ----- groups -----

  ghost predicate GroupPlanned(w: View, next: Id, externalId: string, req: GroupRequest, e: Edit, p: Parts) {
    && NamedGroup(w, req.parent).Ok? && p == GroupParts(w, next, externalId, req)
    && PlanGroup(w, next, externalId, req) == Ok(e)
    && PartsOk(w.data, p) && Writes(e, p.o, p.owner, p.ssh, p.telnet, p.tags)
    && Makes(w.data, p.Assembly(), Apply(w.data, e))
  }

  lemma GroupPlanFacts(w: View, next: Id, externalId: string, req: GroupRequest) returns (e: Edit, p: Parts)
    requires Plannable(w, next) && NoTelnetKey(req.telnet) && PlanGroup(w, next, externalId, req).Ok?
    ensures GroupPlanned(w, next, externalId, req, e, p)
  {
    hide GroupParts, PlanGroup, Plannable, PartsOk, WritesApart, Writes, Makes;
    e := PlanGroup(w, next, externalId, req).value;
    GroupWrites(w, next, externalId, req);
    GroupPartsOk(w, next, externalId, req);
    p := GroupParts(w, next, externalId, req);
    PartsMake(w.data, p, e);
  }

  /** So does a group upsert. */
  lemma GroupPlanKeepsNames(w: View, next: Id, externalId: string, req: GroupRequest, fold: string -> string)
    requires Plannable(w, next) && NoTelnetKey(req.telnet) && NamesUnique(w.data, fold)
    requires PlanGroup(w, next, externalId, req).Ok?
    ensures NamesUnique(Apply(w.data, PlanGroup(w, next, externalId, req).value), fold)
  {
    var e, p := GroupPlanFacts(w, next, externalId, req);
    var after := Apply(w.data, e);
    OnlyGroupNamed(w, externalId, p.o);
    PartsNamesFrom(w.data, p, e);
    assert p.o in after ==> after[p.o] == p.owner;
    hide PartsOk, Makes, Plannable, Apply, PlanGroup, Writes, GroupByExternalId, SshSwap, TelnetSwap, NamedGroup;
    HostNamesKept(w.data, after, p.o, p.tags);
    GroupNamesKept(w.data, after, p.o, p.tags);
    TagNamesKept(w.data, after, p.o, p.tags, fold);
  }

  /** A group that the walk up from `id` never meets can be edited without changing the walk. */
  lemma {:induction false} AncestorsIgnore(v: Vault, w: Vault, id: Id, out: seq<Id>, o: Id)
    requires id != o && o !in out && o !in Ancestors(v, id, out)
    requires forall x :: x != o ==> ((x in v && v[x].GroupP?) <==> (x in w && w[x].GroupP?))
    requires forall x :: x != o && x in v && v[x].GroupP? ==> w[x] == v[x]
    ensures Ancestors(w, id, out) == Ancestors(v, id, out)
    decreases 64 - |out|
  {
    AncestorsExtend(v, id, out);
    if id in v && v[id].GroupP? && v[id].group.parentId.Some? && v[id].group.parentId.value !in out && |out| < 64 {
      var p := v[id].group.parentId.value;
      AncestorsExtend(v, p, out + [p]);
      assert p in out + [p];
      AncestorsIgnore(v, w, p, out + [p], o);
    }
  }

  lemma {:induction false} AncestorsExtend(v: Vault, id: Id, out: seq<Id>)
    ensures out <= Ancestors(v, id, out)
    decreases 64 - |out|
  {
    if id in v && v[id].GroupP? && v[id].group.parentId.Some? && v[id].group.parentId.value !in out && |out| < 64 {
      AncestorsExtend(v, v[id].group.parentId.value, out + [v[id].group.parentId.value]);
    }
  }

  /** Planning the same group request again changes nothing either. */
  lemma GroupPlanRepeats(w: View, next: Id, externalId: string, req: GroupRequest, fold: string -> string, later: View)
    requires Plannable(w, next) && NoTelnetKey(req.telnet) && NamesUnique(w.data, fold)
    requires PlanGroup(w, next, externalId, req).Ok?
    requires later.Valid() && later.data == Apply(w.data, PlanGroup(w, next, externalId, req).value)
    ensures
      var e := PlanGroup(w, next, externalId, req).value;
      var again := PlanGroup(later, e.next, externalId, req);
      again.Ok? && WritesNothingNew(later.data, again.value, e.next)
  {
    var e, p := GroupPlanFacts(w, next, externalId, req);
    GroupPlanKeepsNames(w, next, externalId, req, fold);
    GroupPartsSlots(w, next, externalId, req, p);
    assert p.owner == GroupP(GroupAs(GroupNow(w, p.o), externalId, req, NamedGroup(w, req.parent).value, p.ssh.now,
      p.telnet.now));
    assert GroupRef(p.owner).Some? ==> p.o !in Ancestors(w.data, GroupRef(p.owner).value, []);
    hide GroupParts, PartsOk, Makes, Plannable, Apply, PlanGroup, GroupByExternalId, SshSwap, TelnetSwap, NamedGroup,
      Took, Ancestors;
    PartsPoint(w.data, p);
    SlotsTook(w.data, p, later.data);
    if GroupRef(p.owner).Some? { OthersAsBefore(w.data, p, later.data, GroupRef(p.owner).value); }
    NamedGroupRepeats(w, req.parent, later);
    GroupNameFound(later, externalId, p.o);
    SectionsRepeat(w, p.ssh.lo, p, req.ssh.Some?, req.ssh, req.telnet, Trim(req.name), later, e.next);
    WalkRepeats(w.data, p, e, later.data);
    SameGroupAgain(w, later, e.next, externalId, req, p);
  }

  /** The plan moves only `p.o`, which the walk up from its new parent does not meet. */
  lemma WalkRepeats(v: Vault, p: Parts, e: Edit, w: Vault)
    requires PartsOk(v, p) && Writes(e, p.o, p.owner, p.ssh, p.telnet, p.tags) && w == Apply(v, e) &&
        Makes(v, p.Assembly(), w)
    requires GroupRef(p.owner).Some? ==> p.o !in Ancestors(v, GroupRef(p.owner).value, [])
    requires forall t :: t in p.tags ==> p.tags[t].TagP?
    ensures GroupRef(p.owner).Some? ==>
      p.o != GroupRef(p.owner).value && p.o !in Ancestors(w, GroupRef(p.owner).value, [])
  {
    if GroupRef(p.owner).Some? {
      PartsNamesFrom(v, p, e);
      forall x | x != p.o && x in v && v[x].GroupP?
        ensures x in w && w[x] == v[x]
      {
        OthersAsBefore(v, p, w, x);
      }
      hide Makes, Apply, Writes, Assembled, TwoSlots;
      AncestorsIgnore(v, w, GroupRef(p.owner).value, [], p.o);
    }
  }

  lemma GroupPartsSlots(w: View, next: Id, externalId: string, req: GroupRequest, p: Parts)
    requires Plannable(w, next) && NamedGroup(w, req.parent).Ok? && p == GroupParts(w, next, externalId, req)
    ensures p.ssh == SshSwap(w, p.ssh.lo, p.ssh.prior, req.ssh.Some?, req.ssh, Trim(req.name))
    ensures p.telnet == TelnetSwap(w, p.ssh.hi, p.telnet.prior, req.telnet, Trim(req.name)) && Plannable(w, p.ssh.lo)
  {
    hide PlanSshSlot, PlanTelnetSlot, NamedGroup;
    PlannableLater(w, next, p.ssh.lo);
  }

  lemma SameGroupAgain(w: View, later: View, next2: Id, externalId: string, req: GroupRequest, p: Parts)
    requires GroupByExternalId(later, externalId) == Some(p.o) && p.o in later.data && later.data[p.o] == p.owner
    requires NamedGroup(later, req.parent) == NamedGroup(w, req.parent) && NamedGroup(w, req.parent).Ok?
    requires Took(w.data, p.ssh.puts, later.data) && Took(w.data, p.telnet.puts, later.data)
    requires PlanSshSlot(later, next2, p.ssh.now, req.ssh.Some?, req.ssh, Trim(req.name)) ==
        (Edit(p.ssh.puts, {}, next2), p.ssh.now)
    requires PlanTelnetSlot(later, next2, p.telnet.now, req.telnet, Trim(req.name)) ==
        (Edit(p.telnet.puts, {}, next2), p.telnet.now)
    requires p.owner == GroupP(GroupAs(GroupNow(w, p.o), externalId, req, NamedGroup(w, req.parent).value, p.ssh.now,
        p.telnet.now))
    requires GroupRef(p.owner).Some? ==>
      p.o != GroupRef(p.owner).value && p.o !in Ancestors(later.data, GroupRef(p.owner).value, [])
    ensures var again := PlanGroup(later, next2, externalId, req);
      again.Ok? && WritesNothingNew(later.data, again.value, next2)
  {
    hide PlanSshSlot, PlanTelnetSlot, NamedGroup, GroupByExternalId, Ancestors;
    assert GroupNow(later, p.o) == p.owner.group;
    assert PlanGroup(later, next2, externalId, req) ==
      Ok(Edit(p.ssh.puts, {}, next2).Then(Edit(p.telnet.puts, {}, next2)).Put(p.o, p.owner));
  }
}
