/** Names under writes by others: an upsert planned on one vault and applied to
    another. Names stay unique exactly when nothing there that the plan does
    not touch is already called what the plan writes. */
module NamesExactly {
  import opened Wrappers
  import opened Schema
  import opened VaultGraph
  import opened BridgePlans
  import opened PlanSwaps
  import opened PlanAssembly
  import opened PlanTheorems
  import opened PlanRepeats
  import opened Text

  /** The edit neither writes nor deletes `y`. */
  predicate Stays(now: Vault, e: Edit, y: Id) { y in now && y !in e.puts && y !in e.drops }

  ghost predicate HostClash(now: Vault, e: Edit, externalId: string) {
    exists y: Id :: Stays(now, e, y) && IsHostNamed(now, externalId, y)
  }

  ghost predicate GroupClash(now: Vault, e: Edit, externalId: string) {
    exists y: Id :: Stays(now, e, y) && IsGroupNamed(now, externalId, y)
  }

  predicate TagsAlike(fold: string -> string, p: Payload, q: Payload) {
    p.TagP? && q.TagP? && fold(Trim(p.tag.name)) == fold(Trim(q.tag.name))
  }

  /** A tag the edit creates has the folded name of one that stays. */
  ghost predicate TagClash(now: Vault, e: Edit, fold: string -> string) {
    exists t: Id, y: Id :: t in e.puts && Stays(now, e, y) && TagsAlike(fold, e.puts[t], now[y])
  }

  // ----- what an upsert writes -----

  /** Besides its owner and its tags, a plan puts no host, group or tag. */
  ghost predicate NamedPuts(e: Edit, o: Id, owner: Payload, tags: map<Id, Payload>) {
    && e.puts.Keys !! e.drops && o in e.puts && e.puts[o] == owner && o !in tags
    && (forall t :: t in tags ==> t in e.puts && e.puts[t] == tags[t] && tags[t].TagP?)
    && (forall x :: x in e.puts && SortOf(e.puts[x]) in {HostS, GroupS, TagS} ==> x == o || x in tags)
  }

  lemma PutBySomeSlot(v: Vault, p: Parts, e: Edit, x: Id)
    requires Writes(e, p.o, p.owner, p.ssh, p.telnet, p.tags) && TwoSlots(v, p.ssh, p.telnet)
    requires x in e.puts && SortOf(e.puts[x]) in {HostS, GroupS, TagS}
    ensures x == p.o || x in p.tags
  {
    hide Swapped;
    if x in p.ssh.puts { SlotPutsSorts(v, p.ssh, x); }
    if x in p.telnet.puts { SlotPutsSorts(v, p.telnet, x); }
  }

  lemma PartsNamedPuts(v: Vault, p: Parts, e: Edit)
    requires PartsOk(v, p) && Writes(e, p.o, p.owner, p.ssh, p.telnet, p.tags)
    requires forall t :: t in p.tags ==> p.tags[t].TagP?
    ensures NamedPuts(e, p.o, p.owner, p.tags)
  {
    hide Assembled, Swapped;
    WritesAreApart(v, p.o, p.owner, p.ssh, p.telnet, p.webdav, p.tags);
    EditsMakeAssembly(v, p.o, p.owner, p.ssh, p.telnet, p.webdav, p.tags, e);
    hide Makes, KeysPut;
    forall x | x in e.puts && SortOf(e.puts[x]) in {HostS, GroupS, TagS}
      ensures x == p.o || x in p.tags
    {
      PutBySomeSlot(v, p, e, x);
    }
  }

  // ----- the clashes, exactly -----

  /** A host, group or tag after the edit: the owner, a new tag, or one that stayed. */
  lemma AfterEdit(now: Vault, e: Edit, o: Id, owner: Payload, tags: map<Id, Payload>, x: Id)
    requires NamedPuts(e, o, owner, tags) && x in Apply(now, e)
    requires SortOf(Apply(now, e)[x]) in {HostS, GroupS, TagS}
    ensures
      || (x == o && Apply(now, e)[x] == owner)
      || (x in tags && Apply(now, e)[x] == tags[x])
      || (Stays(now, e, x) && Apply(now, e)[x] == now[x])
  {
  }

  lemma PutsAreThere(now: Vault, e: Edit, o: Id, owner: Payload, tags: map<Id, Payload>)
    requires NamedPuts(e, o, owner, tags)
    ensures o in Apply(now, e) && Apply(now, e)[o] == owner
    ensures forall t :: t in tags ==> t in Apply(now, e) && Apply(now, e)[t] == tags[t]
    ensures forall y :: Stays(now, e, y) ==> y in Apply(now, e) && Apply(now, e)[y] == now[y]
  {
  }

  /** External ids of hosts stay unique exactly without a host clash. */
  lemma HostsExactly(now: Vault, e: Edit, o: Id, owner: Payload, tags: map<Id, Payload>, externalId: string)
    requires NamedPuts(e, o, owner, tags) && HostNamesUnique(now)
    requires owner.HostP? && owner.host.externalId == Some(externalId)
    ensures HostNamesUnique(Apply(now, e)) <==> !HostClash(now, e, externalId)
  {
    var after := Apply(now, e);
    PutsAreThere(now, e, o, owner, tags);
    if HostClash(now, e, externalId) {
      var y: Id :| Stays(now, e, y) && IsHostNamed(now, externalId, y);
      assert y in after && after[y].host.externalId == after[o].host.externalId && y != o;
    } else {
      hide Apply, NamedPuts;
      forall x | x in after && after[x].HostP?
        ensures x == o || (Stays(now, e, x) && after[x] == now[x] && !IsHostNamed(now, externalId, x))
      {
        AfterEdit(now, e, o, owner, tags, x);
        TagsAreTags(e, o, owner, tags);
      }
    }
  }

  lemma TagsAreTags(e: Edit, o: Id, owner: Payload, tags: map<Id, Payload>)
    requires NamedPuts(e, o, owner, tags)
    ensures forall t :: t in tags ==> tags[t].TagP? && t in e.puts && e.puts[t] == tags[t]
    ensures forall t :: t in e.puts && e.puts[t].TagP? ==> t == o || t in tags
  {
  }

  lemma GroupsExactly(now: Vault, e: Edit, o: Id, owner: Payload, tags: map<Id, Payload>, externalId: string)
    requires NamedPuts(e, o, owner, tags) && GroupNamesUnique(now)
    requires owner.GroupP? && owner.group.externalId == Some(externalId)
    ensures GroupNamesUnique(Apply(now, e)) <==> !GroupClash(now, e, externalId)
  {
    var after := Apply(now, e);
    PutsAreThere(now, e, o, owner, tags);
    if GroupClash(now, e, externalId) {
      var y: Id :| Stays(now, e, y) && IsGroupNamed(now, externalId, y);
      assert y in after && after[y].group.externalId == after[o].group.externalId && y != o;
    } else {
      hide Apply, NamedPuts;
      forall x | x in after && after[x].GroupP?
        ensures x == o || (Stays(now, e, x) && after[x] == now[x] && !IsGroupNamed(now, externalId, x))
      {
        AfterEdit(now, e, o, owner, tags, x);
        TagsAreTags(e, o, owner, tags);
      }
    }
  }

  /** Names of the owner's other sort stay unique whatever it is called. */
  lemma OthersStayUnique(now: Vault, e: Edit, o: Id, owner: Payload, tags: map<Id, Payload>)
    requires NamedPuts(e, o, owner, tags)
    ensures !owner.HostP? && HostNamesUnique(now) ==> HostNamesUnique(Apply(now, e))
    ensures !owner.GroupP? && GroupNamesUnique(now) ==> GroupNamesUnique(Apply(now, e))
  {
    var after := Apply(now, e);
    TagsAreTags(e, o, owner, tags);
    hide Apply, NamedPuts;
    forall x | x in after && (after[x].HostP? || after[x].GroupP?)
      ensures (x == o && after[x] == owner) || (x in now && after[x] == now[x])
    {
      AfterEdit(now, e, o, owner, tags, x);
    }
  }

  /** Folded tag names stay unique exactly without a tag clash. */
  lemma TagsExactly(now: Vault, e: Edit, o: Id, owner: Payload, tags: map<Id, Payload>, fold: string -> string)
    requires NamedPuts(e, o, owner, tags) && IsOwner(owner)
    requires TagNamesUnique(now, fold) && TagNamesUnique(tags, fold)
    ensures TagNamesUnique(Apply(now, e), fold) <==> !TagClash(now, e, fold)
  {
    var after := Apply(now, e);
    PutsAreThere(now, e, o, owner, tags);
    TagsAreTags(e, o, owner, tags);
    assert e.puts[o] == owner;
    hide Apply, NamedPuts;
    if TagClash(now, e, fold) {
      var t: Id, y: Id :| t in e.puts && Stays(now, e, y) && TagsAlike(fold, e.puts[t], now[y]);
      assert t in tags && t in after && y in after && t != y;
    } else {
      forall x | x in after && after[x].TagP?
        ensures (x in tags && after[x] == tags[x]) || (Stays(now, e, x) && after[x] == now[x])
      {
        AfterEdit(now, e, o, owner, tags, x);
      }
      forall x, y | x in after && y in after && TagsAlike(fold, after[x], after[y])
        ensures x == y
      {
        TagsApart(now, e, tags, fold, x, y, after[x], after[y]);
      }
    }
  }

  lemma TagsApart(now: Vault, e: Edit, tags: map<Id, Payload>, fold: string -> string, x: Id, y: Id, p: Payload,
      q: Payload)
    requires TagNamesUnique(now, fold) && TagNamesUnique(tags, fold) && !TagClash(now, e, fold)
    requires forall t :: t in tags ==> t in e.puts && e.puts[t] == tags[t]
    requires (x in tags && p == tags[x]) || (Stays(now, e, x) && p == now[x])
    requires (y in tags && q == tags[y]) || (Stays(now, e, y) && q == now[y])
    requires TagsAlike(fold, p, q)
    ensures x == y
  {
    hide TagClash;
    if x in tags && y !in tags { NoClashBetween(now, e, fold, x, y); }
    if x !in tags && y in tags { NoClashBetween(now, e, fold, y, x); }
  }

  lemma NoClashBetween(now: Vault, e: Edit, fold: string -> string, t: Id, y: Id)
    requires !TagClash(now, e, fold) && t in e.puts && Stays(now, e, y)
    ensures y in now && !TagsAlike(fold, e.puts[t], now[y])
  {
  }

  // ----- the theorems -----

  lemma NamesAre(now: Vault, e: Edit, o: Id, owner: Payload, tags: map<Id, Payload>, fold: string -> string,
      externalId: string)
    requires NamedPuts(e, o, owner, tags) && NamesUnique(now, fold) && TagNamesUnique(tags, fold)
    requires owner.HostP? && owner.host.externalId == Some(externalId)
    ensures NamesUnique(Apply(now, e), fold) <==> !HostClash(now, e, externalId) && !TagClash(now, e, fold)
  {
    hide NamedPuts, HostNamesUnique, GroupNamesUnique, TagNamesUnique, Apply, HostClash, TagClash;
    HostsExactly(now, e, o, owner, tags, externalId);
    OthersStayUnique(now, e, o, owner, tags);
    TagsExactly(now, e, o, owner, tags, fold);
  }

  /** A host upsert planned on one vault and applied to any other with unique
      names: they stay unique exactly when no host that stays has the external
      id and no tag that stays has the folded label of a tag it creates. */
  lemma HostNamesExactly(
    w: View, next: Id, externalId: string, req: HostRequest, fold: string -> string, now: Vault)
    requires Plannable(w, next) && NoTelnetKey(req.telnet) && PlanHost(w, next, externalId, req, fold).Ok?
    requires NamesUnique(now, fold)
    ensures
      var e := PlanHost(w, next, externalId, req, fold).value;
      NamesUnique(Apply(now, e), fold) <==> !HostClash(now, e, externalId) && !TagClash(now, e, fold)
  {
    var e, p := HostPlanFacts(w, next, externalId, req, fold);
    HostTagsAre(w, next, externalId, req, fold, e, p);
    hide *;
    PartsNamedPuts(w.data, p, e);
    NamesAre(now, e, p.o, p.owner, p.tags, fold, externalId);
  }

  lemma HostTagsAre(w: View, next: Id, externalId: string, req: HostRequest, fold: string -> string, e: Edit, p: Parts)
    requires HostPlanned(w, next, externalId, req, fold, e, p) && Plannable(w, next)
    ensures PartsOk(w.data, p) && Writes(e, p.o, p.owner, p.ssh, p.telnet, p.tags)
    ensures PlanHost(w, next, externalId, req, fold) == Ok(e)
    ensures p.owner.HostP? && p.owner.host.externalId == Some(externalId)
    ensures TagNamesUnique(p.tags, fold) && forall t :: t in p.tags ==> p.tags[t].TagP?
  {
    PlannableIsValid(w, next);
    hide Plannable, PartsOk, Makes, Writes, SshSwap, TelnetSwap, PlanTags, TagNamesUnique, PlanHost;
    NewTagsDiffer(w, p.telnet.hi, fold, req.tags);
    TagsFit(w, p.telnet.hi, fold, req.tags);
  }

  lemma GroupNamesAre(now: Vault, e: Edit, o: Id, owner: Payload, fold: string -> string, externalId: string)
    requires NamedPuts(e, o, owner, map[]) && NamesUnique(now, fold)
    requires owner.GroupP? && owner.group.externalId == Some(externalId)
    ensures NamesUnique(Apply(now, e), fold) <==> !GroupClash(now, e, externalId)
  {
    assert TagNamesUnique(map[], fold);
    assert !TagClash(now, e, fold);
    hide NamedPuts, HostNamesUnique, GroupNamesUnique, TagNamesUnique, Apply, GroupClash, TagClash;
    GroupsExactly(now, e, o, owner, map[], externalId);
    OthersStayUnique(now, e, o, owner, map[]);
    TagsExactly(now, e, o, owner, map[], fold);
  }

  /** The same for a group upsert and the group's external id. */
  lemma GroupNamesExactly(w: View, next: Id, externalId: string, req: GroupRequest, fold: string -> string, now: Vault)
    requires Plannable(w, next) && NoTelnetKey(req.telnet) && PlanGroup(w, next, externalId, req).Ok?
    requires NamesUnique(now, fold)
    ensures
      var e := PlanGroup(w, next, externalId, req).value;
      NamesUnique(Apply(now, e), fold) <==> !GroupClash(now, e, externalId)
  {
    var e, p := GroupPlanFacts(w, next, externalId, req);
    GroupOwnerIs(w, next, externalId, req, e, p);
    hide *;
    PartsNamedPuts(w.data, p, e);
    GroupNamesAre(now, e, p.o, p.owner, fold, externalId);
  }

  lemma GroupOwnerIs(w: View, next: Id, externalId: string, req: GroupRequest, e: Edit, p: Parts)
    requires GroupPlanned(w, next, externalId, req, e, p)
    ensures PartsOk(w.data, p) && Writes(e, p.o, p.owner, p.ssh, p.telnet, p.tags)
    ensures PlanGroup(w, next, externalId, req) == Ok(e)
    ensures p.owner.GroupP? && p.owner.group.externalId == Some(externalId) && p.tags == map[]
  {
    hide PartsOk, Makes, Writes, SshSwap, TelnetSwap, PlanGroup;
  }

  // ----- deletes -----

  lemma PartsDropsKnown(v: Vault, p: Parts, e: Edit)
    requires PartsOk(v, p) && Writes(e, p.o, p.owner, p.ssh, p.telnet, p.tags)
    ensures e.drops <= v.Keys && e.puts.Keys !! e.drops
  {
    PartsPoint(v, p);
    PartsAreSound(v, p, e);
    assert Closed(v);
    hide Assembled, SlotsFit, IdsFresh, OwnerFits, SlotsApart, KeysPut, InlineUnshared, ConfigsUnshared, NoOrphans;
    forall x | x in e.drops
      ensures x in v
    {
      if x in p.ssh.drops { DropTouches(v, p.ssh, x); } else { DropTouches(v, p.telnet, x); }
    }
  }

  /** An upsert deletes only what the vault it was planned on has. */
  lemma HostDropsKnown(w: View, next: Id, externalId: string, req: HostRequest, fold: string -> string)
    requires Plannable(w, next) && NoTelnetKey(req.telnet) && PlanHost(w, next, externalId, req, fold).Ok?
    ensures PlanHost(w, next, externalId, req, fold).value.drops <= w.data.Keys
  {
    var e, p := HostPlanFacts(w, next, externalId, req, fold);
    HostTagsAre(w, next, externalId, req, fold, e, p);
    hide *;
    PartsDropsKnown(w.data, p, e);
  }

  lemma GroupDropsKnown(w: View, next: Id, externalId: string, req: GroupRequest)
    requires Plannable(w, next) && NoTelnetKey(req.telnet) && PlanGroup(w, next, externalId, req).Ok?
    ensures PlanGroup(w, next, externalId, req).value.drops <= w.data.Keys
  {
    var e, p := GroupPlanFacts(w, next, externalId, req);
    GroupOwnerIs(w, next, externalId, req, e, p);
    hide *;
    PartsDropsKnown(w.data, p, e);
  }
}
