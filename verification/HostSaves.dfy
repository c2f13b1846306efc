/** The client's saves and deletes, each as one change of ownership. */
module HostSaves {
  import opened Wrappers
  import opened Schema
  import opened VaultGraph
  import opened BridgePlans
  import opened PlanSwaps
  import opened PlanAssembly
  import opened HostForms
  import opened HostTheorems
  import opened Text
  import F = Forest

  ghost predicate IdsBelow(v: Vault, next: Id) { forall x :: x in v ==> x < next }

  // ----- saving a host -----

  lemma SerialIsLoose(v: Vault, h: Option<Host>)
    requires WellFormed(v)
    ensures WellFormed(WithoutSerial(v, h))
  {
    if WithoutSerial(v, h) != v { LooseRowsMayGo(v, {h.value.serialConfigId.value}); }
  }

  /** The sections are found the same with and without the serial config. */
  lemma FoundAlike(v: Vault, h: Option<Host>, prior: Option<Id>, sort: Sort)
    requires sort in {SshS, TelnetS, WebDavS}
    ensures var b := WithoutSerial(v, h);
      ConfigOf(v, prior, sort) == ConfigOf(b, prior, sort) && InlineOfConfig(v, prior) == InlineOfConfig(b, prior)
      && (Points(v, prior, sort) ==> Points(b, prior, sort))
  {
  }

  lemma SharedAfter(b: Vault, now: Vault, s: Swap)
    requires SharedRowsFrom(b, now) && PutsPlain(s.puts)
    ensures SharedRowsFrom(b, After(now, s))
  {
  }

  /** The swap that saving section `sort` makes. */
  function SectionSwap(v: Vault, now: Vault, next: Id, was: Option<Host>, sort: Sort, f: Option<SectionForm>,
      name: string, certKey: CertKeys): Swap
    requires SaveHostSlot(v, now, next, was, sort, f, name, certKey).Ok?
  {
    SlotOf(sort, HostSlot(was, sort), SaveHostSlot(v, now, next, was, sort, f, name, certKey).value, next)
  }

  lemma SectionIsSlot(
    v: Vault, now: Vault, next: Id, was: Option<Host>, sort: Sort, f: Option<SectionForm>, name: string,
      certKey: CertKeys, lo: Id)
    requires WellFormed(v) && IdsBelow(v, lo) && lo <= next && sort in {SshS, TelnetS, WebDavS}
    requires SharedRowsFrom(WithoutSerial(v, was), now) && Points(v, HostSlot(was, sort), sort)
    requires SaveHostSlot(v, now, next, was, sort, f, name, certKey).Ok?
    ensures
      var b, s := WithoutSerial(v, was), SectionSwap(v, now, next, was, sort, f, name, certKey);
      ClientSlot(b, s) && s.lo <= s.hi && SharedRowsFrom(b, After(now, s)) && Points(b, s.prior, sort)
  {
    var b := WithoutSerial(v, was);
    SerialIsLoose(v, was);
    FoundAlike(v, was, HostSlot(was, sort), sort);
    assert Closed(b);
    assert forall x :: x in b ==> x < next;
    hide WellFormed, WithoutSerial, SaveSlot, Swapped, Points;
    SavedSlotIsSwapped(b, now, next, sort, HostSlot(was, sort), f, name, certKey);
    var s := SectionSwap(v, now, next, was, sort, f, name, certKey);
    assert s.lo <= s.hi by { SwappedIsForward(b, s); }
    SharedAfter(b, now, s);
  }

  lemma SwappedIsForward(v: Vault, s: Swap)
    requires Swapped(v, s)
    ensures s.lo <= s.hi
  {
  }

  /** A successful save, taken apart: the vault without the serial config, and the three slots. */
  ghost predicate HostSaved(v: Vault, next: Id, f: HostForm, r: (Vault, Id, Id), b: Vault, owner: Payload,
      s: seq<Swap>)
  {
    && b == WithoutSerial(v, ExistingHost(v, f.id)) && |s| == SLOTS && ClientSave(b, r.1, owner, s)
    && r.0 == Saved(b, r.1, owner, s) && owner.HostP? && owner.host.tagIds == f.tagIds &&
      owner.host.groupId == f.groupId
    && s[2].hi <= r.2 && r.1 < r.2 && next <= r.2
  }

  lemma HostRefs(v: Vault, was: Option<Host>, id: Option<Id>)
    requires Closed(v) && was == ExistingHost(v, id)
    ensures Points(v, HostSlot(was, SshS), SshS) && Points(v, HostSlot(was, TelnetS), TelnetS) &&
        Points(v, HostSlot(was, WebDavS), WebDavS)
  {
    if was.Some? { assert RefsOk(v, v[id.value]); }
  }

  /** The three sections of a save, one after the other on the rows as they come to be. */
  ghost predicate Sections(v: Vault, next: Id, f: HostForm, certKey: CertKeys, s: seq<Swap>) {
    && |s| == SLOTS
    && var was, name := ExistingHost(v, f.id), FormName(f);
       var b := WithoutSerial(v, was);
       && SaveHostSlot(v, b, next, was, SshS, f.ssh, name, certKey).Ok?
       && s[0] == SectionSwap(v, b, next, was, SshS, f.ssh, name, certKey)
       && SaveHostSlot(v, After(b, s[0]), s[0].hi, was, TelnetS, f.telnet, name, certKey).Ok?
       && s[1] == SectionSwap(v, After(b, s[0]), s[0].hi, was, TelnetS, f.telnet, name, certKey)
       && SaveHostSlot(v, After(After(b, s[0]), s[1]), s[1].hi, was, WebDavS, WebDavSection(f.webdav), name,
         certKey).Ok?
       && s[2] == SectionSwap(v, After(After(b, s[0]), s[1]), s[1].hi, was, WebDavS, WebDavSection(f.webdav), name,
         certKey)
  }

  function OwnerOf(v: Vault, f: HostForm, s: seq<Swap>): Payload
    requires |s| == SLOTS
  {
    HostP(SavedHost(ExistingHost(v, f.id), f, s[0].now, s[1].now, s[2].now))
  }

  lemma SaveHasSections(v: Vault, next: Id, f: HostForm, certKey: CertKeys) returns (s: seq<Swap>)
    requires SaveHost(v, next, f, certKey).Ok?
    ensures |s| == SLOTS && Sections(v, next, f, certKey, s)
    ensures
      var was := ExistingHost(v, f.id);
      SaveHost(v, next, f, certKey).value ==
        PutOwner(After(After(After(WithoutSerial(v, was), s[0]), s[1]), s[2]), s[2].hi,
          if was.Some? then f.id else None, OwnerOf(v, f, s))
  {
    var was, name := ExistingHost(v, f.id), FormName(f);
    var b := WithoutSerial(v, was);
    hide SaveHostSlot, SavedHost;
    var s0 := SectionSwap(v, b, next, was, SshS, f.ssh, name, certKey);
    var s1 := SectionSwap(v, After(b, s0), s0.hi, was, TelnetS, f.telnet, name, certKey);
    var s2 := SectionSwap(v, After(After(b, s0), s1), s1.hi, was, WebDavS, WebDavSection(f.webdav), name, certKey);
    s := [s0, s1, s2];
  }

  lemma SectionsAreSlots(v: Vault, next: Id, f: HostForm, certKey: CertKeys, s: seq<Swap>)
    requires WellFormed(v) && IdsBelow(v, next) && Sections(v, next, f, certKey, s)
    ensures
      var was := ExistingHost(v, f.id);
      var b := WithoutSerial(v, was);
      && (forall k :: 0 <= k < SLOTS ==>
        ClientSlot(b, s[k]) && Points(b, s[k].prior, SlotSort(k)) && s[k].sort == SlotSort(k))
      && s[0].prior == HostSlot(was, SshS) && s[1].prior == HostSlot(was, TelnetS) &&
        s[2].prior == HostSlot(was, WebDavS)
      && next == s[0].lo <= s[0].hi == s[1].lo <= s[1].hi == s[2].lo <= s[2].hi
  {
    hide WellFormed, SaveHostSlot, SectionSwap, Points, WithoutSerial, ClientSlot, SharedRowsFrom, IdsBelow;
    var was, name := ExistingHost(v, f.id), FormName(f);
    var b := WithoutSerial(v, was);
    assert Closed(v) by { WellFormedIsClosed(v); }
    HostRefs(v, was, f.id);
    OwnRows(b);
    SectionIsSlot(v, b, next, was, SshS, f.ssh, name, certKey, next);
    SectionIsSlot(v, After(b, s[0]), s[0].hi, was, TelnetS, f.telnet, name, certKey, next) by {
      SwapNames(v, b, next, was, SshS, f.ssh, name, certKey);
    }
    SwapNames(v, b, next, was, SshS, f.ssh, name, certKey);
    SwapNames(v, After(b, s[0]), s[0].hi, was, TelnetS, f.telnet, name, certKey);
    SectionIsSlot(v, After(After(b, s[0]), s[1]), s[1].hi, was, WebDavS, WebDavSection(f.webdav), name, certKey, next);
    SwapNames(v, After(After(b, s[0]), s[1]), s[1].hi, was, WebDavS, WebDavSection(f.webdav), name, certKey);
  }

  lemma WellFormedIsClosed(v: Vault)
    requires WellFormed(v)
    ensures Closed(v)
  {
  }

  lemma OwnRows(b: Vault)
    ensures SharedRowsFrom(b, b)
  {
  }

  lemma SaveTakenApart(v: Vault, next: Id, f: HostForm, certKey: CertKeys)
      returns (b: Vault, owner: Payload, s: seq<Swap>)
    requires WellFormed(v) && IdsBelow(v, next) && SaveHost(v, next, f, certKey).Ok?
    ensures HostSaved(v, next, f, SaveHost(v, next, f, certKey).value, b, owner, s)
    ensures |s| == SLOTS && Sections(v, next, f, certKey, s) && owner == OwnerOf(v, f, s)
  {
    hide WellFormed, SaveHost, Sections, Points, WithoutSerial, ClientSlot, IdsBelow, Kept;
    var was := ExistingHost(v, f.id);
    s := SaveHasSections(v, next, f, certKey);
    SectionsAreSlots(v, next, f, certKey, s);
    b, owner := WithoutSerial(v, was), OwnerOf(v, f, s);
    SerialIsLoose(v, was);
    HostStaysPut(v, was, f.id);
    SerialKeepsIds(v, was, next);
    var r := SaveHost(v, next, f, certKey).value;
    assert was.Some? ==> r.1 == f.id.value && r.1 in b && r.1 < next by { ExistingBelow(v, f.id, next); }
    assert SlotsDone(b, r.1, owner, s);
    assert IdsDrawn(b, r.1, s);
  }

  lemma ExistingBelow(v: Vault, id: Option<Id>, next: Id)
    requires IdsBelow(v, next)
    ensures ExistingHost(v, id).Some? ==> id.Some? && id.value in v && id.value < next
  {
  }

  lemma SwapNames(v: Vault, now: Vault, next: Id, was: Option<Host>, sort: Sort, f: Option<SectionForm>, name: string,
      certKey: CertKeys)
    requires SaveHostSlot(v, now, next, was, sort, f, name, certKey).Ok?
    ensures
      var s := SectionSwap(v, now, next, was, sort, f, name, certKey);
      s.sort == sort && s.prior == HostSlot(was, sort) && s.lo == next
  {
  }

  lemma SerialKeepsIds(v: Vault, was: Option<Host>, next: Id)
    requires IdsBelow(v, next)
    ensures forall x :: x in WithoutSerial(v, was) ==> x < next
  {
  }

  lemma HostStaysPut(v: Vault, was: Option<Host>, id: Option<Id>)
    requires was == ExistingHost(v, id)
    ensures was.Some? ==> id.value in WithoutSerial(v, was) && WithoutSerial(v, was)[id.value] == HostP(was.value)
  {
  }

  /** Saving a host keeps every config and inline identity with one owner and
      leaves no orphan; the vault stays well-formed exactly when the tags the
      form carries exist, which the save does not look at. */
  lemma SaveHostKeepsWellFormedExactly(v: Vault, next: Id, f: HostForm, certKey: CertKeys)
    requires WellFormed(v) && IdsBelow(v, next) && SaveHost(v, next, f, certKey).Ok?
    ensures WellFormed(SaveHost(v, next, f, certKey).value.0) <==>
        forall t :: t in f.tagIds ==> Points(v, Some(t), TagS)
  {
    var b, owner, s := SaveTakenApart(v, next, f, certKey);
    var r := SaveHost(v, next, f, certKey).value;
    SaveGroupThere(v, next, f, certKey, b, r.1, owner);
    SerialIsNoTag(v, ExistingHost(v, f.id));
    hide SaveHost, WithoutSerial, ClientSave, Saved, WellFormed;
    if TagsThere(b, owner) {
      SaveKeepsWellFormed(b, r.1, owner, s);
    } else if WellFormed(r.0) {
      TagsWereThere(b, r.1, owner, s);
    }
  }

  lemma SerialIsNoTag(v: Vault, was: Option<Host>)
    ensures forall t: Id :: Points(v, Some(t), TagS) <==> Points(WithoutSerial(v, was), Some(t), TagS)
  {
  }

  lemma SaveGroupThere(v: Vault, next: Id, f: HostForm, certKey: CertKeys, b: Vault, o: Id, owner: Payload)
    requires SaveHost(v, next, f, certKey).Ok? && b == WithoutSerial(v, ExistingHost(v, f.id))
    requires owner.HostP? && owner.host.groupId == f.groupId && o == SaveHost(v, next, f, certKey).value.1 &&
        IdsBelow(v, next)
    requires o in b ==> b[o].HostP?
    ensures GroupThere(b, o, owner)
  {
    assert CheckHostForm(v, f).None?;
    hide SaveHost;
    if f.groupId.Some? { assert f.groupId.value in b && b[f.groupId.value].GroupP?; }
  }

  lemma PutBelow(v: Vault, o: Id, owner: Payload, s: seq<Swap>, k: nat, x: Id)
    requires ClientSave(v, o, owner, s) && |s| == SLOTS && k < SLOTS && x in s[k].puts
    ensures x < s[2].hi
  {
    assert s[k].hi <= s[2].hi && s[k].lo <= s[2].hi && WellFormed(v);
    SlotsOfSave(v, o, owner, s, k);
    hide ClientSave;
    PutTouches(v, s[k], x);
  }

  lemma SavedIds(v: Vault, o: Id, owner: Payload, s: seq<Swap>, next: Id)
    requires ClientSave(v, o, owner, s) && |s| == SLOTS && s[2].hi <= next && o < next && IdsBelow(v, next)
    ensures IdsBelow(Saved(v, o, owner, s), next)
  {
    hide ClientSave;
    forall x | x in Saved(v, o, owner, s)
      ensures x < next
    {
      if x in s[0].puts { PutBelow(v, o, owner, s, 0, x); }
      if x in s[1].puts { PutBelow(v, o, owner, s, 1, x); }
      if x in s[2].puts { PutBelow(v, o, owner, s, 2, x); }
    }
  }

  /** Ids drawn later are new to the saved vault as well. */
  lemma SaveHostKeepsIds(v: Vault, next: Id, f: HostForm, certKey: CertKeys)
    requires WellFormed(v) && IdsBelow(v, next) && SaveHost(v, next, f, certKey).Ok?
    ensures IdsBelow(SaveHost(v, next, f, certKey).value.0, SaveHost(v, next, f, certKey).value.2)
  {
    var b, owner, s := SaveTakenApart(v, next, f, certKey);
    assert IdsBelow(b, next) by { SerialKeepsIds(v, ExistingHost(v, f.id), next); }
    hide SaveHost, WithoutSerial, ClientSave;
    SavedIds(b, SaveHost(v, next, f, certKey).value.1, owner, s, SaveHost(v, next, f, certKey).value.2);
  }

  // ----- saving a group -----

  function KeptSlot(k: nat, ref: Option<Id>, at: Id): Swap { Swap(SlotSort(k), ref, ref, map[], {}, at, at) }

  lemma GroupRefs(v: Vault, was: Option<Group>, id: Option<Id>)
    requires Closed(v) && was == ExistingGroup(v, id)
    ensures was.Some? ==> Points(v, was.value.sshConfigId, SshS) && Points(v, was.value.telnetConfigId, TelnetS)
  {
    if was.Some? { assert RefsOk(v, v[id.value]); }
  }

  /** The SSH defaults of a group, saved or dropped, are a swapped slot. */
  lemma GroupSlotIsSwapped(v: Vault, next: Id, prior: Option<Id>, f: SectionForm, name: string, certKey: CertKeys)
    requires Closed(v) && Points(v, prior, SshS) && IdsBelow(v, next)
    requires SaveGroupSlot(v, next, ConfigOf(v, prior, SshS), InlineOfConfig(v, prior), f, name, certKey).Ok?
    ensures
      var s := SlotOf(SshS, prior, SaveGroupSlot(v, next, ConfigOf(v, prior, SshS), InlineOfConfig(v, prior), f, name,
        certKey).value, next);
      ClientSlot(v, s)
  {
    var was, inline := ConfigOf(v, prior, SshS), InlineOfConfig(v, prior);
    var s := SlotOf(SshS, prior, SaveGroupSlot(v, next, was, inline, f, name, certKey).value, next);
    OwnRows(v);
    InlineOfConfigIsInline(v, prior);
    LoginIsClientLogin(v, v, next, inline, f.login, name, certKey);
    var (e, identity) := SaveLogin(v, next, inline, f.login, name, certKey).value;
    hide SaveLogin;
    var cfg := Configured(was, SshS, f.port, f.settings, identity);
    ConfiguredFits(was, SshS, f.port, f.settings, identity);
    hide Configured;
    if cfg == SshConfigP(SshConfig(None, None, "")) {
      assert identity.None? && e.puts == map[];
      ClientEmptied(v, s);
    } else {
      ClientSlotIsSwapped(v, s, e, identity, cfg);
    }
    SlotDropsPlain(v, s);
  }

  ghost predicate GroupSaved(v: Vault, next: Id, id: Option<Id>, parent: Option<Id>, r: (Vault, Id, Id),
      owner: Payload, s: seq<Swap>)
  {
    && |s| == SLOTS && ClientSave(v, r.1, owner, s) && r.0 == Saved(v, r.1, owner, s) && owner.GroupP? &&
      GroupRef(owner) == parent
    && (if ExistingGroup(v, id).Some? then r.1 == id.value else r.1 !in v)
    && s[2].hi <= r.2 && r.1 < r.2 && next <= r.2
  }

  lemma SaveGroupTakenApart(v: Vault, next: Id, id: Option<Id>, name: string, parent: Option<Id>)
      returns (owner: Payload, s: seq<Swap>)
    requires WellFormed(v) && IdsBelow(v, next) && SaveGroup(v, next, id, name, parent).Ok?
    ensures GroupSaved(v, next, id, parent, SaveGroup(v, next, id, name, parent).value, owner, s)
  {
    hide WellFormed, CheckParent, ClientSlot, Points;
    var r := SaveGroup(v, next, id, name, parent).value;
    var g := if id.Some? then ExistingGroup(v, id).value else NewGroup();
    owner := GroupP(g.(name := Trim(name), parentId := parent));
    WellFormedIsClosed(v);
    GroupRefs(v, ExistingGroup(v, id), id);
    s := [KeptSlot(0, g.sshConfigId, next), KeptSlot(1, g.telnetConfigId, next), KeptSlot(2, None, next)];
    NoRefPoints(v);
    assert SlotsDone(v, r.1, owner, s);
    assert IdsDrawn(v, r.1, s);
    KeptSlotsSave(v, r.1, owner, s);
  }

  /** The SSH defaults of a group form, as a slot. */
  function GroupFormSlot(v: Vault, next: Id, f: GroupForm, certKey: CertKeys): Result<(Edit, Option<Id>), FormError> {
    var ref := GroupSshId(ExistingGroup(v, f.id));
    SaveGroupSlot(v, next, ConfigOf(v, ref, SshS), InlineOfConfig(v, ref), f.ssh, Trim(f.name), certKey)
  }

  function GroupOwner(v: Vault, f: GroupForm, ssh: Option<Id>): Payload {
    var was := ExistingGroup(v, f.id);
    var g := if was.Some? then was.value else NewGroup();
    GroupP(g.(name := Trim(f.name), parentId := f.parentId, sshConfigId := ssh))
  }

  lemma GroupFormShape(v: Vault, next: Id, f: GroupForm, certKey: CertKeys)
    requires SaveGroupForm(v, next, f, certKey).Ok?
    ensures GroupFormSlot(v, next, f, certKey).Ok?
    ensures
      var (e, ssh) := GroupFormSlot(v, next, f, certKey).value;
      SaveGroupForm(v, next, f, certKey).value ==
        PutOwner(Apply(v, e), e.next, if ExistingGroup(v, f.id).Some? then f.id else None, GroupOwner(v, f, ssh))
  {
    hide SaveGroupSlot, ConfigOf, InlineOfConfig, CheckParent, Trim;
  }

  /** The three slots of a saved group: SSH saved, the others kept. */
  function GroupSlots(s0: Swap, telnet: Option<Id>): seq<Swap> {
    [s0, KeptSlot(1, telnet, s0.hi), KeptSlot(2, None, s0.hi)]
  }

  lemma GroupSlotsDone(v: Vault, o: Id, owner: Payload, s0: Swap, telnet: Option<Id>, next: Id)
    requires ClientSlot(v, s0) && s0.sort == SshS && Points(v, s0.prior, SshS) && Points(v, telnet, TelnetS)
    requires s0.prior == (if o in v then SlotRef(v[o], 0) else None) && s0.now == SlotRef(owner, 0)
    requires telnet == (if o in v then SlotRef(v[o], 1) else None) && telnet == SlotRef(owner, 1)
    requires owner.GroupP? && (o in v ==> v[o].GroupP?) && s0.lo == next && IdsBelow(v, next) &&
        (o < next || s0.hi <= o)
    ensures SlotsDone(v, o, owner, GroupSlots(s0, telnet)) && IdsDrawn(v, o, GroupSlots(s0, telnet))
    ensures Saved(v, o, owner, GroupSlots(s0, telnet)) == After(v, s0)[o := owner]
  {
    SlotIsForward(v, s0);
    hide ClientSlot, Points;
    NoRefPoints(v);
    OneSlotSaves(v, o, owner, GroupSlots(s0, telnet));
  }

  lemma SaveGroupFormTakenApart(v: Vault, next: Id, f: GroupForm, certKey: CertKeys)
      returns (owner: Payload, s: seq<Swap>)
    requires WellFormed(v) && IdsBelow(v, next) && SaveGroupForm(v, next, f, certKey).Ok?
    ensures GroupSaved(v, next, f.id, f.parentId, SaveGroupForm(v, next, f, certKey).value, owner, s)
    ensures GroupFormSlot(v, next, f, certKey).Ok? && |s| == SLOTS
    ensures s[0] == SlotOf(SshS, GroupSshId(ExistingGroup(v, f.id)), GroupFormSlot(v, next, f, certKey).value, next)
    ensures owner == GroupOwner(v, f, s[0].now)
  {
    hide WellFormed, ClientSlot, Points, SaveGroupSlot, ConfigOf, InlineOfConfig, SaveGroupForm, Swapped, GroupSlots,
      SlotsDone, IdsDrawn, Saved, Trim;
    var r, was := SaveGroupForm(v, next, f, certKey).value, ExistingGroup(v, f.id);
    GroupFormShape(v, next, f, certKey);
    WellFormedIsClosed(v);
    GroupRefs(v, was, f.id);
    NoRefPoints(v);
    ExistingGroupBelow(v, f.id, next);
    var s0 := SlotOf(SshS, GroupSshId(was), GroupFormSlot(v, next, f, certKey).value, next);
    GroupSlotIsSwapped(v, next, GroupSshId(was), f.ssh, Trim(f.name), certKey);
    SlotIsForward(v, s0);
    var telnet := if was.Some? then was.value.telnetConfigId else None;
    owner := GroupOwner(v, f, s0.now);
    s := GroupSlots(s0, telnet);
    GroupSlotsDone(v, r.1, owner, s0, telnet, next);
    GroupSlotsEnd(s0, telnet);
  }

  lemma GroupSlotsEnd(s0: Swap, telnet: Option<Id>)
    ensures |GroupSlots(s0, telnet)| == SLOTS && GroupSlots(s0, telnet)[0] == s0
    ensures GroupSlots(s0, telnet)[2].hi == s0.hi
  {
  }

  lemma ExistingGroupBelow(v: Vault, id: Option<Id>, next: Id)
    requires IdsBelow(v, next)
    ensures ExistingGroup(v, id).Some? ==> id.Some? && id.value in v && id.value < next && v[id.value].GroupP?
  {
  }

  lemma SlotIsForward(v: Vault, s: Swap)
    requires ClientSlot(v, s)
    ensures s.lo <= s.hi
  {
    SwappedIsForward(v, s);
  }

  lemma NoRefPoints(v: Vault)
    ensures forall sort :: Points(v, None, sort)
  {
  }

  lemma OneSlotSaves(v: Vault, o: Id, owner: Payload, s: seq<Swap>)
    requires |s| == SLOTS && s[1].puts == s[2].puts == map[] && s[1].drops == s[2].drops == {}
    ensures Saved(v, o, owner, s) == ((v + s[0].puts) - s[0].drops)[o := owner]
  {
  }

  lemma KeptSlotsSave(v: Vault, o: Id, owner: Payload, s: seq<Swap>)
    requires |s| == SLOTS && s[0].puts == s[1].puts == s[2].puts == map[] &&
        s[0].drops == s[1].drops == s[2].drops == {}
    ensures Saved(v, o, owner, s) == v[o := owner]
  {
  }

  /** Re-parenting or editing a group keeps the vault well-formed. */
  lemma SaveGroupKeepsWellFormed(v: Vault, next: Id, id: Option<Id>, name: string, parent: Option<Id>)
    requires WellFormed(v) && IdsBelow(v, next) && SaveGroup(v, next, id, name, parent).Ok?
    ensures WellFormed(SaveGroup(v, next, id, name, parent).value.0)
  {
    var owner, s := SaveGroupTakenApart(v, next, id, name, parent);
    assert Points(v, parent, GroupS);
    hide SaveGroup, ClientSave, Saved, WellFormed;
    SaveKeepsWellFormed(v, SaveGroup(v, next, id, name, parent).value.1, owner, s);
  }

  /** So does saving its SSH defaults: dropped with their inline login when the
      form leaves nothing in them. */
  lemma SaveGroupFormKeepsWellFormed(v: Vault, next: Id, f: GroupForm, certKey: CertKeys)
    requires WellFormed(v) && IdsBelow(v, next) && SaveGroupForm(v, next, f, certKey).Ok?
    ensures WellFormed(SaveGroupForm(v, next, f, certKey).value.0)
  {
    var owner, s := SaveGroupFormTakenApart(v, next, f, certKey);
    assert Points(v, f.parentId, GroupS);
    hide SaveGroupForm, ClientSave, Saved, WellFormed;
    SaveKeepsWellFormed(v, SaveGroupForm(v, next, f, certKey).value.1, owner, s);
  }

  lemma GroupUntouched(v: Vault, o: Id, owner: Payload, s: seq<Swap>, x: Id)
    requires ClientSave(v, o, owner, s) && |s| == SLOTS && x != o
    ensures
      var w := Saved(v, o, owner, s);
      && ((x in v && v[x].GroupP?) <==> (x in w && w[x].GroupP?))
      && (x in v && v[x].GroupP? ==> w[x] == v[x])
  {
    hide ClientSave, Points;
    SlotTouches(v, o, owner, s, 0, x);
    SlotTouches(v, o, owner, s, 1, x);
    SlotTouches(v, o, owner, s, 2, x);
    if x in v && v[x].GroupP? {
      BystanderToSlot(v, o, owner, s, 0, x);
      BystanderToSlot(v, o, owner, s, 1, x);
      BystanderToSlot(v, o, owner, s, 2, x);
    }
  }

  lemma BystanderToSlot(v: Vault, o: Id, owner: Payload, s: seq<Swap>, k: nat, x: Id)
    requires ClientSave(v, o, owner, s) && |s| == SLOTS && k < SLOTS && x in v && SortOf(v[x]) in {HostS, GroupS, TagS}
    ensures x !in s[k].puts && x !in s[k].drops
  {
    hide ClientSave, WellFormed, Swapped, Points;
    SlotsOfSave(v, o, owner, s, k);
    SaveBegins(v, o, owner, s);
    WellFormedIsClosed(v);
    if !Kept(s[k]) { BystanderToSwap(v, s[k], x); }
  }

  /** A saved group is the only change to the tree of groups. */
  lemma SavedTree(v: Vault, o: Id, owner: Payload, s: seq<Swap>)
    requires ClientSave(v, o, owner, s) && owner.GroupP?
    ensures |s| == SLOTS && GroupTree(Saved(v, o, owner, s)) == F.Reparent(GroupTree(v), o, GroupRef(owner))
  {
    hide ClientSave;
    SaveBegins(v, o, owner, s);
    var w := Saved(v, o, owner, s);
    assert w[o] == owner;
    hide Saved;
    forall x | x != o
      ensures (x in v && v[x].GroupP?) <==> (x in w && w[x].GroupP?)
      ensures x in v && v[x].GroupP? ==> w[x] == v[x]
    {
      GroupUntouched(v, o, owner, s, x);
    }
    assert GroupTree(w).Keys == F.Reparent(GroupTree(v), o, GroupRef(owner)).Keys;
  }

  /** Moving a group keeps the tree acyclic exactly when the group is not an
      ancestor of its new parent beyond the 65 that are looked at. */
  lemma SaveGroupKeepsForestExactly(v: Vault, next: Id, id: Id, name: string, parent: Id)
    requires WellFormed(v) && IdsBelow(v, next) && SaveGroup(v, next, Some(id), name, Some(parent)).Ok? &&
        F.Acyclic(GroupTree(v))
    ensures F.Acyclic(GroupTree(SaveGroup(v, next, Some(id), name, Some(parent)).value.0)) <==>
              !F.BeyondLimit(GroupTree(v), id, parent, CLIENT_LIMIT)
  {
    var owner, s := SaveGroupTakenApart(v, next, Some(id), name, Some(parent));
    assert F.GuardAccepts(GroupTree(v), id, parent, CLIENT_LIMIT);
    hide ClientSave, Saved, WellFormed;
    SavedTree(v, id, owner, s);
    F.GuardedMoveExactly(GroupTree(v), id, parent, CLIENT_LIMIT);
  }

  /** Saving a group with its SSH defaults re-parents through the same guard,
      so it keeps the tree acyclic under exactly the same condition. */
  lemma SaveGroupFormKeepsForestExactly(v: Vault, next: Id, f: GroupForm, certKey: CertKeys)
    requires WellFormed(v) && IdsBelow(v, next) && SaveGroupForm(v, next, f, certKey).Ok? && F.Acyclic(GroupTree(v))
    ensures
      var r := SaveGroupForm(v, next, f, certKey).value;
      F.Acyclic(GroupTree(r.0)) <==>
        (f.parentId.Some? ==> !F.BeyondLimit(GroupTree(v), r.1, f.parentId.value, CLIENT_LIMIT))
  {
    var owner, s := SaveGroupFormTakenApart(v, next, f, certKey);
    var o, parent := SaveGroupForm(v, next, f, certKey).value.1, f.parentId;
    assert parent.Some? ==> parent.value in v && v[parent.value].GroupP?;
    assert parent.Some? && f.id.Some? ==>
      parent.value != f.id.value && f.id.value !in F.Walk(GroupTree(v), parent.value, [], CLIENT_LIMIT);
    assert o in v ==> f.id == Some(o);
    WellFormedIsClosed(v);
    hide ClientSave, Saved, WellFormed, SaveGroupForm;
    SavedTree(v, o, owner, s);
    if parent.None? {
      F.ReparentIsAcyclicExactly(GroupTree(v), o, None);
    } else {
      if o !in v { NewGroupIsGuarded(v, o, parent.value); }
      F.GuardedMoveExactly(GroupTree(v), o, parent.value, CLIENT_LIMIT);
    }
  }

  /** Nobody sits in a group that is not there yet. */
  lemma NewGroupIsGuarded(v: Vault, o: Id, parent: Id)
    requires Closed(v) && o !in v && parent in v
    ensures F.GuardAccepts(GroupTree(v), o, parent, CLIENT_LIMIT)
  {
    var t := GroupTree(v);
    var walk := F.Walk(t, parent, [], CLIENT_LIMIT);
    F.WalkIsNearest(t, parent, parent, [], CLIENT_LIMIT);
    forall i | 0 <= i < |walk|
      ensures walk[i] != o
    {
      assert F.Up(t, parent, i + 1) == Some(walk[i]);
      F.UpShorter(t, parent, i, i + 1);
      var y := F.Up(t, parent, i).value;
      assert RefsOk(v, v[y]);
    }
  }

  // ----- deleting an owner -----

  /** What an owner's config slots take along. */
  function OwnedDrops(v: Vault, p: Payload): set<Id> {
    SlotDrops(v, p, 0) + SlotDrops(v, p, 1) + SlotDrops(v, p, 2)
  }

  function SlotDrops(v: Vault, p: Payload, k: nat): set<Id> {
    DropSlot(ConfigOf(v, SlotRef(p, k), SlotSort(k)), InlineOfConfig(v, SlotRef(p, k)))
  }

  function EmptiedSlot(v: Vault, p: Payload, k: nat, at: Id): Swap {
    Swap(SlotSort(k), SlotRef(p, k), None, map[], SlotDrops(v, p, k), at, at)
  }

  function EmptiedSlots(v: Vault, p: Payload, at: Id): seq<Swap> {
    [EmptiedSlot(v, p, 0, at), EmptiedSlot(v, p, 1, at), EmptiedSlot(v, p, 2, at)]
  }

  lemma EmptiedIsSwapped(v: Vault, o: Id, k: nat, at: Id)
    requires Closed(v) && o in v && IsOwner(v[o]) && k < SLOTS
    ensures ClientSlot(v, EmptiedSlot(v, v[o], k, at)) && Points(v, SlotRef(v[o], k), SlotSort(k))
  {
    assert RefsOk(v, v[o]);
    InlineOfConfigIsInline(v, SlotRef(v[o], k));
    ClientEmptied(v, EmptiedSlot(v, v[o], k, at));
    SlotDropsPlain(v, EmptiedSlot(v, v[o], k, at));
  }

  /** An owner goes with all it owns, and its members, if any, are moved. */
  function Gone(v: Vault, o: Id, moved: map<Id, Payload>): Vault
    requires o in v
  {
    (v + moved) - (OwnedDrops(v, v[o]) + {o})
  }

  ghost predicate MovedFit(v: Vault, o: Id, moved: map<Id, Payload>) {
    forall x :: x in moved ==> x in v && x != o && IsOwner(v[x]) && KeepsConfigs(v[x], moved[x])
  }

  lemma GoneIsAssembled(v: Vault, o: Id, moved: map<Id, Payload>, at: Id)
    requires WellFormed(v) && IdsBelow(v, at) && o in v && IsOwner(v[o]) && MovedFit(v, o, moved)
    ensures Assembled(v, AssemblyOf(o, None, EmptiedSlots(v, v[o], at), moved))
  {
    var a := AssemblyOf(o, None, EmptiedSlots(v, v[o], at), moved);
    forall k | 0 <= k < SLOTS ensures Swapped(v, EmptiedSlot(v, v[o], k, at)) { EmptiedIsSwapped(v, o, k, at); }
    assert o < at;
    hide WellFormed, Swapped, SlotDrops;
    assert SlotsFit(v, a) && IdsFresh(v, a) && OwnerFits(v, a) && SlotsApart(a);
  }

  lemma DropsPlain(v: Vault, o: Id, x: Id)
    requires Closed(v) && o in v && IsOwner(v[o]) && x in OwnedDrops(v, v[o])
    ensures x in v && (IsConfig(v[x]) || IsInline(v[x]))
  {
    EmptiedIsSwapped(v, o, 0, 0);
    EmptiedIsSwapped(v, o, 1, 0);
    EmptiedIsSwapped(v, o, 2, 0);
    hide SlotDrops;
    assert x in EmptiedSlot(v, v[o], 0, 0).drops || x in EmptiedSlot(v, v[o], 1, 0).drops ||
      x in EmptiedSlot(v, v[o], 2, 0).drops;
  }

  lemma MovedNotDropped(v: Vault, o: Id, moved: map<Id, Payload>)
    requires Closed(v) && o in v && IsOwner(v[o]) && MovedFit(v, o, moved)
    ensures forall x :: x in moved ==> x !in OwnedDrops(v, v[o]) && x != o
  {
    hide OwnedDrops;
    forall x | x in moved && x in OwnedDrops(v, v[o]) ensures false { DropsPlain(v, o, x); }
  }

  lemma EmptiedBySlot(v: Vault, o: Id, moved: map<Id, Payload>, at: Id, x: Id)
    requires o in v
    ensures
      var a := AssemblyOf(o, None, EmptiedSlots(v, v[o], at), moved);
      (DroppedBySlot(a, x) <==> x in OwnedDrops(v, v[o])) && !PutBySlot(a, x)
  {
    hide SlotDrops;
    var a := AssemblyOf(o, None, EmptiedSlots(v, v[o], at), moved);
    if x in OwnedDrops(v, v[o]) {
      assert x in a.swaps[0].drops || x in a.swaps[1].drops || x in a.swaps[2].drops;
    }
  }

  lemma EmptiedPutNothing(v: Vault, o: Id, at: Id)
    requires o in v
    ensures forall k :: 0 <= k < |EmptiedSlots(v, v[o], at)| ==> EmptiedSlots(v, v[o], at)[k].puts == map[]
  {
    hide SlotDrops;
  }

  lemma GoneExtrasMade(v: Vault, o: Id, moved: map<Id, Payload>, at: Id)
    requires o in v && forall x :: x in moved ==> x !in OwnedDrops(v, v[o]) && x != o
    ensures ExtrasMade(AssemblyOf(o, None, EmptiedSlots(v, v[o], at), moved), Gone(v, o, moved))
  {
    hide OwnedDrops, EmptiedSlots;
  }

  lemma GoneSlotsMade(v: Vault, o: Id, moved: map<Id, Payload>, at: Id)
    requires o in v
    ensures SlotsMade(AssemblyOf(o, None, EmptiedSlots(v, v[o], at), moved), Gone(v, o, moved))
  {
    var a, w := AssemblyOf(o, None, EmptiedSlots(v, v[o], at), moved), Gone(v, o, moved);
    hide OwnedDrops, EmptiedSlots, DroppedBySlot;
    EmptiedPutNothing(v, o, at);
    forall x | DroppedBySlot(a, x) ensures x !in w { EmptiedBySlot(v, o, moved, at, x); }
  }

  lemma GoneUntouchedAt(v: Vault, o: Id, moved: map<Id, Payload>, x: Id)
    requires o in v && x != o && x !in OwnedDrops(v, v[o]) && x !in moved
    ensures (x in v <==> x in Gone(v, o, moved)) && (x in v && x in Gone(v, o, moved) ==> v[x] == Gone(v, o, moved)[x])
  {
    hide OwnedDrops;
  }

  lemma AssemblyMoves(v: Vault, o: Id, moved: map<Id, Payload>, at: Id)
    requires o in v
    ensures
      var a := AssemblyOf(o, None, EmptiedSlots(v, v[o], at), moved);
      a.o == o && a.moved == moved && a.tags == map[]
  {
    hide EmptiedSlots;
  }

  ghost predicate UntouchedAt(v: Vault, a: Assembly, w: Vault, x: Id) {
    x != a.o && !PutBySlot(a, x) && !DroppedBySlot(a, x) && x !in a.tags && x !in a.moved ==>
      (x in v <==> x in w) && (x in v && x in w ==> v[x] == w[x])
  }

  lemma RestFromEach(v: Vault, a: Assembly, w: Vault)
    requires forall x: Id :: UntouchedAt(v, a, w, x)
    ensures RestUntouched(v, a, w)
  {
    hide PutBySlot, DroppedBySlot;
    forall x | x != a.o && !PutBySlot(a, x) && !DroppedBySlot(a, x) && x !in a.tags && x !in a.moved
      ensures (x in v <==> x in w) && (x in v && x in w ==> v[x] == w[x])
    {
      assert UntouchedAt(v, a, w, x);
    }
  }

  lemma UntouchedIs(v: Vault, a: Assembly, w: Vault, x: Id)
    requires x != a.o && !DroppedBySlot(a, x) && x !in a.moved ==>
               (x in v <==> x in w) && (x in v && x in w ==> v[x] == w[x])
    ensures UntouchedAt(v, a, w, x)
  {
    hide PutBySlot, DroppedBySlot;
  }

  lemma GoneRestUntouched(v: Vault, o: Id, moved: map<Id, Payload>, at: Id)
    requires o in v
    ensures RestUntouched(v, AssemblyOf(o, None, EmptiedSlots(v, v[o], at), moved), Gone(v, o, moved))
  {
    hide *;
    var a, w := AssemblyOf(o, None, EmptiedSlots(v, v[o], at), moved), Gone(v, o, moved);
    AssemblyMoves(v, o, moved, at);
    forall x: Id
      ensures UntouchedAt(v, a, w, x)
    {
      EmptiedBySlot(v, o, moved, at, x);
      if x != o && x !in OwnedDrops(v, v[o]) && x !in moved { GoneUntouchedAt(v, o, moved, x); }
      UntouchedIs(v, a, w, x);
    }
    RestFromEach(v, a, w);
  }

  lemma GoneMakes(v: Vault, o: Id, moved: map<Id, Payload>, at: Id)
    requires Closed(v) && o in v && IsOwner(v[o]) && MovedFit(v, o, moved)
    ensures Makes(v, AssemblyOf(o, None, EmptiedSlots(v, v[o], at), moved), Gone(v, o, moved))
  {
    hide ExtrasMade, SlotsMade, RestUntouched, Closed, MovedFit, OwnedDrops, EmptiedSlots, Gone;
    MovedNotDropped(v, o, moved);
    GoneExtrasMade(v, o, moved, at);
    GoneSlotsMade(v, o, moved, at);
    GoneRestUntouched(v, o, moved, at);
  }

  /** Where moved members end up. */
  ghost predicate MovedLinks(v: Vault, o: Id, moved: map<Id, Payload>, w: Vault) {
    && (forall x :: x in moved ==>
      x in v && moved[x] == Regrouped(v[x], GroupRef(moved[x])) && Points(w, GroupRef(moved[x]), GroupS))
    && (forall x :: x in w ==> GroupRef(w[x]) != Some(o))
  }

  lemma GoneIsWellFormed(v: Vault, o: Id, moved: map<Id, Payload>, at: Id)
    requires WellFormed(v) && IdsBelow(v, at) && o in v && IsOwner(v[o]) && MovedFit(v, o, moved)
    requires MovedLinks(v, o, moved, Gone(v, o, moved))
    ensures WellFormed(Gone(v, o, moved))
  {
    var a, w := AssemblyOf(o, None, EmptiedSlots(v, v[o], at), moved), Gone(v, o, moved);
    assert Closed(v) by { WellFormedIsClosed(v); }
    hide WellFormed, Closed, Assembled, Makes, Gone, MovedLinks, MovedFit, LinksOk, EmptiedSlots;
    GoneIsAssembled(v, o, moved, at);
    GoneMakes(v, o, moved, at);
    GoneLinks(v, o, moved, at, w);
    AssemblyKeepsWellFormed(v, a, w);
  }

  lemma GoneLinks(v: Vault, o: Id, moved: map<Id, Payload>, at: Id, w: Vault)
    requires o in v && MovedLinks(v, o, moved, w)
    ensures LinksOk(v, AssemblyOf(o, None, EmptiedSlots(v, v[o], at), moved), w)
  {
    hide SlotDrops, Points;
    var a := AssemblyOf(o, None, EmptiedSlots(v, v[o], at), moved);
    assert forall k :: 0 <= k < |a.swaps| ==> a.swaps[k].puts == map[];
  }

  /** Nobody sits in a host. */
  lemma NobodyInHost(b: Vault, id: Id)
    requires Closed(b) && id in b && b[id].HostP?
    ensures MovedLinks(b, id, map[], Gone(b, id, map[])) && MovedFit(b, id, map[]) && IsOwner(b[id])
  {
    forall x | x in Gone(b, id, map[])
      ensures GroupRef(Gone(b, id, map[])[x]) != Some(id)
    {
      assert RefsOk(b, b[x]);
    }
  }

  lemma FewerBelow(v: Vault, next: Id, loose: set<Id>)
    requires IdsBelow(v, next)
    ensures IdsBelow(v - loose, next)
  {
  }

  lemma DeletedOrSame(v: Vault, id: Id, bound: Payload -> Option<Id>)
    requires !(id in v && v[id].HostP?)
    ensures DeleteHost(v, id, bound) == v
  {
  }

  /** Deleting a host keeps the vault well-formed: its configs and inline
      identities go with it and nothing else loses an owner. */
  lemma DeleteHostKeepsWellFormed(v: Vault, next: Id, id: Id, bound: Payload -> Option<Id>)
    requires WellFormed(v) && IdsBelow(v, next)
    ensures WellFormed(DeleteHost(v, id, bound))
  {
    hide *;
    if id in v && v[id].HostP? {
      var loose := Loose(v, id, bound);
      var b := v - loose;
      LooseGoes(v, id, bound);
      LooseLeavesSlots(v, id, bound);
      WellFormedIsClosed(b);
      FewerBelow(v, next, loose);
      NobodyInHost(b, id);
      GoneIsWellFormed(b, id, map[], next);
    } else {
      DeletedOrSame(v, id, bound);
    }
  }

  lemma LooseGoes(v: Vault, id: Id, bound: Payload -> Option<Id>)
    requires WellFormed(v) && id in v && v[id].HostP?
    ensures WellFormed(v - Loose(v, id, bound))
  {
    hide WellFormed;
    LooseRowsMayGo(v, Loose(v, id, bound));
  }

  lemma OwnedDropsAlike(v: Vault, id: Id, bound: Payload -> Option<Id>)
    requires id in v && v[id].HostP?
    ensures OwnedDrops(v - Loose(v, id, bound), v[id]) == OwnedDrops(v, v[id])
  {
    LooseLeavesSlot(v, id, bound, SlotRef(v[id], 0), SshS);
    LooseLeavesSlot(v, id, bound, SlotRef(v[id], 1), TelnetS);
    LooseLeavesSlot(v, id, bound, SlotRef(v[id], 2), WebDavS);
    hide Loose, ConfigOf, InlineOfConfig, DropSlot;
  }

  lemma GoneAfterLoose(v: Vault, id: Id, loose: set<Id>, owned: set<Id>)
    ensures ((v - loose) + map[]) - (owned + {id}) == v - (owned + loose + {id})
  {
  }

  lemma LooseLeavesSlots(v: Vault, id: Id, bound: Payload -> Option<Id>)
    requires id in v && v[id].HostP?
    ensures
      var b := v - Loose(v, id, bound);
      id in b && b[id] == v[id] && DeleteHost(v, id, bound) == Gone(b, id, map[])
  {
    hide Loose, HostDrops, OwnedDrops;
    OwnedDropsAlike(v, id, bound);
    HostDropsAreOwned(v, id, bound);
    GoneAfterLoose(v, id, Loose(v, id, bound), OwnedDrops(v, v[id]));
  }

  lemma LooseLeavesSlot(v: Vault, id: Id, bound: Payload -> Option<Id>, ref: Option<Id>, sort: Sort)
    requires id in v && v[id].HostP? && sort in {SshS, TelnetS, WebDavS}
    ensures var b := v - Loose(v, id, bound);
      ConfigOf(b, ref, sort) == ConfigOf(v, ref, sort) && InlineOfConfig(b, ref) == InlineOfConfig(v, ref)
  {
  }

  lemma HostDropsAreOwned(v: Vault, id: Id, bound: Payload -> Option<Id>)
    requires id in v && v[id].HostP?
    ensures HostDrops(v, id, bound) == OwnedDrops(v, v[id]) + Loose(v, id, bound) + {id}
    ensures id in v - Loose(v, id, bound)
  {
    hide DropSlot, ConfigOf, InlineOfConfig;
  }

  // ----- deleting a group -----

  function Members(v: Vault, g: Id): map<Id, Payload>
    requires g in v
  {
    map x | x in v && x != g && GroupRef(v[x]) == Some(g) :: Lifted(v[x], g, GroupRef(v[g]))
  }

  predicate OwnParentWithMembers(v: Vault, g: Id)
    requires g in v
  {
    GroupRef(v[g]) == Some(g) && exists x :: x in v && x != g && GroupRef(v[x]) == Some(g)
  }

  /** Without Telnet defaults, a deleted group goes with all it owns. */
  lemma DeleteGroupIsGone(v: Vault, g: Id)
    requires g in v && v[g].GroupP? && v[g].group.telnetConfigId.None?
    ensures DeleteGroup(v, g) == Gone(v, g, Members(v, g))
  {
    var w, u := DeleteGroup(v, g), Gone(v, g, Members(v, g));
    assert OwnedDrops(v, v[g]) + {g} == GroupDrops(v, g);
    hide GroupDrops, OwnedDrops;
    forall x | x in w ensures x in u && w[x] == u[x] { }
    assert w.Keys == u.Keys;
  }

  lemma MembersFit(v: Vault, g: Id)
    requires Closed(v) && g in v && v[g].GroupP?
    ensures MovedFit(v, g, Members(v, g))
  {
  }

  lemma GroupIsNotDropped(v: Vault, g: Id, x: Id)
    requires Closed(v) && g in v && IsOwner(v[g]) && x in v && v[x].GroupP?
    ensures x !in OwnedDrops(v, v[g])
  {
    hide OwnedDrops;
    if x in OwnedDrops(v, v[g]) { DropsPlain(v, g, x); }
  }

  lemma MembersLinks(v: Vault, g: Id)
    requires Closed(v) && g in v && v[g].GroupP? && !OwnParentWithMembers(v, g)
    ensures MovedLinks(v, g, Members(v, g), Gone(v, g, Members(v, g)))
  {
    var w, p := Gone(v, g, Members(v, g)), GroupRef(v[g]);
    forall x | x in Members(v, g)
      ensures Points(w, p, GroupS)
    {
      assert RefsOk(v, v[g]) && p != Some(g);
      if p.Some? { GroupIsNotDropped(v, g, p.value); }
    }
  }

  lemma TelnetIsOrphaned(v: Vault, g: Id)
    requires WellFormed(v) && g in v && v[g].GroupP? && v[g].group.telnetConfigId.Some?
    ensures !WellFormed(DeleteGroup(v, g))
  {
    var c, w := v[g].group.telnetConfigId.value, DeleteGroup(v, g);
    assert RefsOk(v, v[g]) && Owns(v, g, c);
    assert c in w && w[c] == v[c] && IsConfig(w[c]);
    forall o
      ensures !Owns(w, o, c)
    {
      if Owns(w, o, c) { assert Owns(v, o, c); }
    }
  }

  lemma MembersAreStranded(v: Vault, g: Id)
    requires Closed(v) && g in v && v[g].GroupP? && OwnParentWithMembers(v, g)
    ensures !WellFormed(DeleteGroup(v, g))
  {
    var x :| x in v && x != g && GroupRef(v[x]) == Some(g);
    var w := DeleteGroup(v, g);
    assert x in w && GroupRef(w[x]) == Some(g) && g !in w;
    assert !RefsOk(w, w[x]);
  }

  /** Deleting a group keeps the vault well-formed exactly when it has no Telnet
      defaults, which would be orphaned, and is not its own parent with
      somebody else in it. */
  lemma DeleteGroupKeepsWellFormedExactly(v: Vault, next: Id, g: Id)
    requires WellFormed(v) && IdsBelow(v, next) && g in v && v[g].GroupP?
    ensures WellFormed(DeleteGroup(v, g)) <==> v[g].group.telnetConfigId.None? && !OwnParentWithMembers(v, g)
  {
    if v[g].group.telnetConfigId.Some? {
      TelnetIsOrphaned(v, g);
    } else if OwnParentWithMembers(v, g) {
      MembersAreStranded(v, g);
    } else {
      DeleteGroupIsGone(v, g);
      MembersFit(v, g);
      MembersLinks(v, g);
      GoneIsWellFormed(v, g, Members(v, g), next);
    }
  }

  /** A delete takes exactly the group's node out of the tree of groups. */
  lemma DeleteGroupLiftsTree(v: Vault, g: Id)
    requires Closed(v) && g in v && v[g].GroupP?
    ensures GroupTree(DeleteGroup(v, g)) == F.Lift(GroupTree(v), g)
  {
    var w := DeleteGroup(v, g);
    forall x | x in v && v[x].GroupP? && x != g
      ensures x in w && w[x] == Lifted(v[x], g, v[g].group.parentId)
    {
    }
    assert forall x :: x in w && w[x].GroupP? ==> x in v && v[x].GroupP? && x != g;
    hide DeleteGroup;
    assert GroupTree(w).Keys == F.Lift(GroupTree(v), g).Keys;
  }

  /** Deleting a group that is not its own parent preserves exactly the
      ancestor relation among the other groups. */
  lemma DeleteGroupKeepsAncestors(v: Vault, g: Id, a: Id, b: Id)
    requires Closed(v) && g in v && v[g].GroupP? && GroupRef(v[g]) != Some(g) && a != g && b != g
    ensures F.Reaches(GroupTree(DeleteGroup(v, g)), a, b) <==> F.Reaches(GroupTree(v), a, b)
  {
    DeleteGroupLiftsTree(v, g);
    F.LiftKeepsAncestors(GroupTree(v), g, a, b);
  }

  /** No host and no other group is lost: each is as it was, or sits in the
      parent of the group it sat in. */
  lemma DeleteGroupKeepsMembers(v: Vault, g: Id, x: Id)
    requires Closed(v) && g in v && v[g].GroupP? && x in v && IsOwner(v[x]) && x != g
    ensures
      var w := DeleteGroup(v, g);
      && x in w
      && w[x] == Regrouped(v[x], if GroupRef(v[x]) == Some(g) then GroupRef(v[g]) else GroupRef(v[x]))
  {
  }

  // ----- duplicating a host -----

  lemma RawRefsOk(v: Vault, c: Id, cfg: Payload, x: Id)
    requires WellFormed(v) && c in v && IsConfig(v[c]) && SortOf(cfg) == SortOf(v[c]) &&
        IdentityRef(cfg) == IdentityRef(v[c])
    requires x in v
    ensures RefsOk(v[c := cfg], v[c := cfg][x])
  {
    assert RefsOk(v, v[x]);
  }

  lemma RawClosed(v: Vault, c: Id, cfg: Payload)
    requires WellFormed(v) && c in v && IsConfig(v[c]) && SortOf(cfg) == SortOf(v[c]) &&
        IdentityRef(cfg) == IdentityRef(v[c])
    ensures Closed(v[c := cfg])
  {
    hide WellFormed, RefsOk;
    forall x | x in v
      ensures RefsOk(v[c := cfg], v[c := cfg][x])
    {
      RawRefsOk(v, c, cfg, x);
    }
  }

  /** A config rewritten with the same login owns and is owned as before. */
  lemma RawConfigKeepsWellFormed(v: Vault, c: Id, cfg: Payload)
    requires WellFormed(v) && c in v && IsConfig(v[c]) && SortOf(cfg) == SortOf(v[c]) &&
        IdentityRef(cfg) == IdentityRef(v[c])
    ensures WellFormed(v[c := cfg])
  {
    var w := v[c := cfg];
    RawClosed(v, c, cfg);
    hide RefsOk;
    forall a, b ensures Owns(w, a, b) <==> Owns(v, a, b) { }
    forall a, b ensures Uses(w, a, b) <==> Uses(v, a, b) { }
  }

  lemma RawSshKeepsWellFormed(v: Vault, w: Vault, src: Id, copy: Id)
    requires src in v && v[src].HostP? && WellFormed(w)
    ensures WellFormed(RawSsh(v, w, src, copy))
  {
    hide WellFormed;
    if RawSsh(v, w, src, copy) != w {
      var to := w[copy].host.sshConfigId.value;
      RawConfigKeepsWellFormed(w, to, RawSsh(v, w, src, copy)[to]);
    }
  }

  /** Copying a host into a group of the vault keeps it well-formed, whatever the host. */
  lemma CopyHostKeepsWellFormed(
    v: Vault, next: Id, id: Id, name: Option<string>, groupId: Option<Id>, tokenMode: bool, sectionOk: bool,
    certKey: CertKeys)
    requires WellFormed(v) && IdsBelow(v, next)
    requires CopyHost(v, next, id, name, groupId, tokenMode, sectionOk, certKey).Ok?
    ensures
      var r := CopyHost(v, next, id, name, groupId, tokenMode, sectionOk, certKey).value;
      WellFormed(r.0) && IdsBelow(r.0, r.2)
  {
    var h := v[id].host;
    var f := CopyForm(v, id, if name.Some? then name.value else h.name, groupId, tokenMode, sectionOk);
    assert forall t :: t in f.tagIds ==> Points(v, Some(t), TagS) by { assert RefsOk(v, v[id]); }
    hide SaveHost, WellFormed, CopyForm;
    SaveHostKeepsWellFormedExactly(v, next, f, certKey);
    SaveHostKeepsIds(v, next, f, certKey);
    var r := SaveHost(v, next, f, certKey).value;
    RawSshKeepsWellFormed(v, r.0, id, r.1);
  }
}
