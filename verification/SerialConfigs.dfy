/** Serial configs: every one of them belongs to one host. No slot holds them,
    so a plan has to look after them by hand; the bridge's host delete does not. */
module SerialConfigs {
  import opened Wrappers
  import opened Schema
  import opened VaultGraph
  import opened BridgePlans
  import opened PlanSwaps
  import opened PlanAssembly
  import opened PlanTheorems
  import opened HostForms
  import opened HostSaves
  import opened HostTheorems
  import opened GroupTrees
  import opened HostRuns

  predicate IsSerial(v: Vault, s: Id) { s in v && v[s].SerialConfigP? }

  predicate NamesSerial(v: Vault, o: Id, s: Id) { o in v && v[o].HostP? && v[o].host.serialConfigId == Some(s) }

  ghost predicate SerialNamed(v: Vault, s: Id) { exists o :: NamesSerial(v, o, s) }

  /** Every serial config is named by exactly one host. */
  ghost predicate SerialsOwned(v: Vault) {
    && (forall s :: IsSerial(v, s) ==> SerialNamed(v, s))
    && (forall s, a, b :: IsSerial(v, s) && NamesSerial(v, a, s) && NamesSerial(v, b, s) ==> a == b)
  }

  // ----- edits that lose no serial config -----

  /** At `x`, `w` has no serial config and no reference to one that `v` had not,
      and keeps the references to those it still has. */
  ghost predicate FollowsAt(v: Vault, w: Vault, x: Id) {
    && (IsSerial(w, x) ==> IsSerial(v, x))
    && (forall s :: NamesSerial(w, x, s) ==> NamesSerial(v, x, s))
    && (forall s :: NamesSerial(v, x, s) && IsSerial(w, s) ==> NamesSerial(w, x, s))
  }

  ghost predicate Follows(v: Vault, w: Vault) { forall x: Id :: FollowsAt(v, w, x) }

  lemma FollowingKeepsOwned(v: Vault, w: Vault)
    requires SerialsOwned(v) && Follows(v, w)
    ensures SerialsOwned(w)
  {
    forall s | IsSerial(w, s)
      ensures SerialNamed(w, s)
    {
      assert FollowsAt(v, w, s);
      var o :| NamesSerial(v, o, s);
      assert FollowsAt(v, w, o);
    }
    forall s, a, b | IsSerial(w, s) && NamesSerial(w, a, s) && NamesSerial(w, b, s)
      ensures a == b
    {
      assert FollowsAt(v, w, s) && FollowsAt(v, w, a) && FollowsAt(v, w, b);
    }
  }

  /** `w` has at `x` what `v` has, or the same owner in another group. */
  predicate SameOrMoved(v: Vault, w: Vault, x: Id) {
    x in v && x in w && (w[x] == v[x] || (IsOwner(v[x]) && w[x] == Regrouped(v[x], GroupRef(w[x]))))
  }

  lemma SameFollows(v: Vault, w: Vault, x: Id)
    requires SameOrMoved(v, w, x)
    ensures FollowsAt(v, w, x)
  {
  }

  /** Neither vault has a host or a serial config at `x`. */
  predicate NothingAt(v: Vault, w: Vault, x: Id) {
    && (x in v ==> !v[x].HostP?) && (x in w ==> !w[x].HostP? && !w[x].SerialConfigP?)
  }

  lemma NothingFollows(v: Vault, w: Vault, x: Id)
    requires NothingAt(v, w, x)
    ensures FollowsAt(v, w, x)
  {
  }

  // ----- assemblies -----

  lemma SlotPutSort(v: Vault, s: Swap, x: Id)
    requires (Swapped(v, s) || Kept(s)) && x in s.puts && s.sort in {SshS, TelnetS, WebDavS}
    ensures !s.puts[x].HostP? && !s.puts[x].SerialConfigP?
  {
    assert Some(x) == s.now || PutsInline(v, s, x) || PutsKey(v, s, x);
  }

  /** What an assembly moves, it only moves. */
  ghost predicate OnlyMoves(v: Vault, a: Assembly) {
    forall x :: x in a.moved && x in v ==> a.moved[x] == Regrouped(v[x], GroupRef(a.moved[x]))
  }

  lemma MovedIsSame(v: Vault, a: Assembly, w: Vault, x: Id)
    requires OwnerFits(v, a) && ExtrasMade(a, w) && OnlyMoves(v, a) && x in a.moved
    ensures SameOrMoved(v, w, x)
  {
  }

  lemma PutIsNothing(v: Vault, a: Assembly, w: Vault, k: nat, x: Id)
    requires Assembled(v, a) && Makes(v, a, w) && k < SLOTS && x in a.swaps[k].puts && x != a.o && x !in a.moved
    ensures NothingAt(v, w, x)
  {
    var s := SlotFacts(v, a, k);
    SlotPutSort(v, s, x);
    SlotLands(v, a, w, k);
    if x in v && v[x].HostP? {
      hide Assembled, Makes;
      if !Kept(s) {
        assert Closed(v) by { AssembledIsClosed(v, a); }
        BystanderToSwap(v, s, x);
      }
    }
  }

  lemma AssembledIsClosed(v: Vault, a: Assembly)
    requires Assembled(v, a)
    ensures Closed(v) && |a.swaps| == SLOTS && OwnerFits(v, a)
  {
    hide IdsFresh, OwnerFits, SlotsApart, ConfigsUnshared, InlineUnshared, NoOrphans, Swapped, Kept, SlotRef;
  }

  lemma TagIsNothing(v: Vault, a: Assembly, w: Vault, x: Id)
    requires Assembled(v, a) && Makes(v, a, w) && x in a.tags
    ensures NothingAt(v, w, x)
  {
    hide SlotsFit, OwnerFits, SlotsApart, WellFormed, SlotsMade, RestUntouched;
  }

  lemma DroppedIsNothing(v: Vault, a: Assembly, w: Vault, x: Id)
    requires Assembled(v, a) && Makes(v, a, w) && DroppedBySlot(a, x)
    ensures NothingAt(v, w, x)
  {
    AssembledIsClosed(v, a);
    assert x !in w;
    var k :| 0 <= k < |a.swaps| && x in a.swaps[k].drops;
    var s := SlotFacts(v, a, k);
    hide Assembled, Makes;
    if x in v && v[x].HostP? && !Kept(s) { BystanderToSwap(v, s, x); }
  }

  lemma RestIsSame(v: Vault, a: Assembly, w: Vault, x: Id)
    requires Makes(v, a, w) && x != a.o && x !in a.moved && x !in a.tags && !PutBySlot(a, x) && !DroppedBySlot(a, x)
    ensures SameOrMoved(v, w, x) || NothingAt(v, w, x)
  {
    hide SlotsMade, ExtrasMade;
  }

  lemma MakesExtras(v: Vault, a: Assembly, w: Vault)
    requires Makes(v, a, w)
    ensures ExtrasMade(a, w)
  {
  }

  /** Whatever is assembled around one owner, the other owners keep their serial configs. */
  lemma OthersFollow(v: Vault, a: Assembly, w: Vault, x: Id)
    requires Assembled(v, a) && Makes(v, a, w) && OnlyMoves(v, a) && x != a.o
    ensures FollowsAt(v, w, x)
  {
    AssembledIsClosed(v, a);
    MakesExtras(v, a, w);
    hide Assembled, Makes, OnlyMoves, FollowsAt, SameOrMoved, NothingAt, OwnerFits, ExtrasMade;
    if x in a.moved {
      MovedIsSame(v, a, w, x);
      SameFollows(v, w, x);
    } else if x in a.tags {
      TagIsNothing(v, a, w, x);
      NothingFollows(v, w, x);
    } else if k :| 0 <= k < |a.swaps| && x in a.swaps[k].puts {
      PutIsNothing(v, a, w, k, x);
      NothingFollows(v, w, x);
    } else if DroppedBySlot(a, x) {
      DroppedIsNothing(v, a, w, x);
      NothingFollows(v, w, x);
    } else {
      RestIsSame(v, a, w, x);
      if SameOrMoved(v, w, x) { SameFollows(v, w, x); } else { NothingFollows(v, w, x); }
    }
  }

  lemma AssemblyFollows(v: Vault, a: Assembly, w: Vault)
    requires Assembled(v, a) && Makes(v, a, w) && OnlyMoves(v, a) && FollowsAt(v, w, a.o)
    ensures Follows(v, w)
  {
    hide Assembled, Makes, OnlyMoves, FollowsAt;
    forall x: Id
      ensures FollowsAt(v, w, x)
    {
      if x != a.o { OthersFollow(v, a, w, x); }
    }
  }

  // ----- the bridge's plans -----

  /** The owner of an upsert names the serial config it named. */
  predicate KeepsSerial(v: Vault, o: Id, owner: Payload) {
    owner.HostP? ==>
      if o in v && v[o].HostP? then owner.host.serialConfigId == v[o].host.serialConfigId
      else owner.host.serialConfigId.None?
  }

  lemma OwnerFollows(v: Vault, a: Assembly, w: Vault)
    requires ExtrasMade(a, w) && OwnerFits(v, a) && a.owner.Some? && KeepsSerial(v, a.o, a.owner.value)
    ensures FollowsAt(v, w, a.o)
  {
  }

  lemma PartsFollow(v: Vault, p: Parts, e: Edit)
    requires PartsOk(v, p) && Writes(e, p.o, p.owner, p.ssh, p.telnet, p.tags) && KeepsSerial(v, p.o, p.owner)
    ensures Follows(v, Apply(v, e))
  {
    var a, w := p.Assembly(), Apply(v, e);
    WritesAreApart(v, p.o, p.owner, p.ssh, p.telnet, p.webdav, p.tags);
    EditsMakeAssembly(v, p.o, p.owner, p.ssh, p.telnet, p.webdav, p.tags, e);
    hide Assembled, Makes, Writes, TwoSlots, KeepsSerial, ExtrasMade, OwnerFits, Apply, FollowsAt, WritesApart;
    AssembledIsClosed(v, a);
    MakesExtras(v, a, w);
    OwnerFollows(v, a, w);
    AssemblyFollows(v, a, w);
  }

  /** A host upsert keeps every serial config with its host. */
  lemma HostPlanKeepsSerials(w: View, next: Id, externalId: string, req: HostRequest, fold: string -> string)
    requires Plannable(w, next) && NoTelnetKey(req.telnet) && SerialsOwned(w.data)
    requires PlanHost(w, next, externalId, req, fold).Ok?
    ensures SerialsOwned(Apply(w.data, PlanHost(w, next, externalId, req, fold).value))
  {
    HostWrites(w, next, externalId, req, fold);
    HostPartsOk(w, next, externalId, req, fold);
    var p, e := HostParts(w, next, externalId, req, fold), PlanHost(w, next, externalId, req, fold).value;
    assert KeepsSerial(w.data, p.o, p.owner) by { HostOwnerKeepsSerial(w, next, externalId, req, fold); }
    hide *;
    PartsFollow(w.data, p, e);
    FollowingKeepsOwned(w.data, Apply(w.data, e));
  }

  lemma HostOwnerKeepsSerial(w: View, next: Id, externalId: string, req: HostRequest, fold: string -> string)
    requires Plannable(w, next) && NamedGroup(w, req.group).Ok?
    ensures var p := HostParts(w, next, externalId, req, fold); KeepsSerial(w.data, p.o, p.owner)
  {
    hide SshSwap, TelnetSwap, PlanTags, NamedGroup, WellFormed;
  }

  /** So does a group upsert. */
  lemma GroupPlanKeepsSerials(w: View, next: Id, externalId: string, req: GroupRequest)
    requires Plannable(w, next) && NoTelnetKey(req.telnet) && SerialsOwned(w.data)
    requires PlanGroup(w, next, externalId, req).Ok?
    ensures SerialsOwned(Apply(w.data, PlanGroup(w, next, externalId, req).value))
  {
    GroupWrites(w, next, externalId, req);
    GroupPartsOk(w, next, externalId, req);
    var p, e := GroupParts(w, next, externalId, req), PlanGroup(w, next, externalId, req).value;
    assert KeepsSerial(w.data, p.o, p.owner);
    hide *;
    PartsFollow(w.data, p, e);
    FollowingKeepsOwned(w.data, Apply(w.data, e));
  }

  /** A group delete makes nothing of what is no host and no other group. */
  lemma GroupDeleteElsewhere(w: View, next: Id, externalId: string, x: Id)
    requires x in w.data && IsOwner(w.data[x]) ==> Some(x) == GroupByExternalId(w, externalId)
    ensures
      var after := Apply(w.data, PlanDeleteGroup(w, next, externalId));
      x in after ==> x in w.data && after[x] == w.data[x] && !IsOwner(w.data[x])
  {
    hide DropSsh, DropTelnet;
  }

  lemma GroupDeleteTouches(w: View, next: Id, externalId: string, x: Id)
    requires Plannable(w, next)
    ensures FollowsAt(w.data, Apply(w.data, PlanDeleteGroup(w, next, externalId)), x)
  {
    hide Plannable, PlanDeleteGroup, Apply;
    var after := Apply(w.data, PlanDeleteGroup(w, next, externalId));
    var g := GroupByExternalId(w, externalId);
    if g.Some? && x in w.data && IsOwner(w.data[x]) && Some(x) != g {
      PlanTheorems.DeleteGroupKeepsMembers(w, next, externalId, x);
      SameFollows(w.data, after, x);
    } else if g.Some? {
      GroupDeleteElsewhere(w, next, externalId, x);
    } else {
      NoGroupNoDelete(w, next, externalId);
    }
  }

  lemma NoGroupNoDelete(w: View, next: Id, externalId: string)
    requires GroupByExternalId(w, externalId).None?
    ensures Apply(w.data, PlanDeleteGroup(w, next, externalId)) == w.data
  {
  }

  /** A group delete keeps them too, even of a group that is its own parent. */
  lemma DeleteGroupKeepsSerials(w: View, next: Id, externalId: string)
    requires Plannable(w, next) && SerialsOwned(w.data)
    ensures SerialsOwned(Apply(w.data, PlanDeleteGroup(w, next, externalId)))
  {
    hide *;
    var after := Apply(w.data, PlanDeleteGroup(w, next, externalId));
    AllFollow(w, next, externalId);
    FollowingKeepsOwned(w.data, after);
  }

  lemma AllFollow(w: View, next: Id, externalId: string)
    requires Plannable(w, next)
    ensures Follows(w.data, Apply(w.data, PlanDeleteGroup(w, next, externalId)))
  {
    hide Plannable, PlanDeleteGroup, FollowsAt, Apply;
    forall x: Id
      ensures FollowsAt(w.data, Apply(w.data, PlanDeleteGroup(w, next, externalId)), x)
    {
      GroupDeleteTouches(w, next, externalId, x);
    }
  }

  // ----- the bridge's host delete -----

  /** The key of an inline identity that no other identity names. */
  ghost predicate KeyGoes(v: Vault, i: Option<Id>, x: Id) {
    KeyOfInline(v, i, x) && forall y: Id :: NamesKey(v, y, x) ==> Some(y) == i
  }

  /** What a host takes along: its SSH, Telnet and WebDAV configs, their inline
      identities, and the key of the SSH one if no other identity names it. */
  ghost predicate TakenAlong(v: Vault, o: Id, x: Id)
    requires o in v
  {
    || x == o
    || x in ConfigRefs(v[o]) || x in InlineOf(v, ConfigRefs(v[o]))
    || KeyGoes(v, InlineAt(v, SlotRef(v[o], 0)), x)
  }

  lemma UnsharedKeyDrops(w: View, i: Id, x: Id)
    requires KeyGoes(w.data, Some(i), x) && w.data.Keys <= w.known
    ensures x in DropKey(w, i, KeyRef(w.data[i]))
  {
    assert !exists id :: id in w.data && id != i && NamesKey(w.data, id, x);
  }

  lemma DropKeyExactly(w: View, next: Id, i: Id, x: Id)
    requires Plannable(w, next) && i in w.data && IsInline(w.data[i])
    ensures x in DropKey(w, i, KeyRef(w.data[i])) <==> KeyGoes(w.data, Some(i), x)
  {
    PlannableIsClosed(w, next);
    hide WellFormed, Closed, DropKey;
    if KeyGoes(w.data, Some(i), x) {
      UnsharedKeyDrops(w, i, x);
    } else if x in DropKey(w, i, KeyRef(w.data[i])) {
      DropKeyDrops(w, i, x);
    }
  }

  lemma SshGoes(w: View, ref: Option<Id>)
    requires Points(w.data, ref, SshS)
    ensures
      var i := InlineAt(w.data, ref);
      && (i.Some? ==> i.value in w.data && IsInline(w.data[i.value]))
      && DropSsh(w, ref) == Opt(ref) + Opt(i) + if i.Some? then DropKey(w, i.value, KeyRef(w.data[i.value])) else {}
  {
    hide DropKey;
  }

  lemma SshGoesExactly(w: View, next: Id, ref: Option<Id>, x: Id)
    requires Plannable(w, next) && Points(w.data, ref, SshS)
    ensures x in DropSsh(w, ref) <==>
      ref == Some(x) || InlineAt(w.data, ref) == Some(x) || KeyGoes(w.data, InlineAt(w.data, ref), x)
  {
    var i := InlineAt(w.data, ref);
    SshGoes(w, ref);
    assert i.None? ==> !KeyGoes(w.data, i, x);
    hide Plannable, DropKey, KeyGoes, DropSsh, InlineAt, Points;
    if i.Some? { DropKeyExactly(w, next, i.value, x); }
  }

  lemma OthersGoExactly(w: View, telnet: Option<Id>, webdav: Option<Id>, x: Id)
    requires Points(w.data, telnet, TelnetS) && Points(w.data, webdav, WebDavS)
    ensures x in DropTelnet(w, telnet) <==> telnet == Some(x) || InlineAt(w.data, telnet) == Some(x)
    ensures x in DropWebDav(w, webdav) <==> webdav == Some(x) || InlineAt(w.data, webdav) == Some(x)
  {
  }

  lemma TakenBySlot(v: Vault, o: Id, x: Id)
    requires o in v && v[o].HostP?
    ensures x in ConfigRefs(v[o]) || x in InlineOf(v, ConfigRefs(v[o])) <==>
      exists k :: 0 <= k < SLOTS && (SlotRef(v[o], k) == Some(x) || InlineAt(v, SlotRef(v[o], k)) == Some(x))
  {
    SlotsAreConfigs(v[o], x);
    if x in InlineOf(v, ConfigRefs(v[o])) {
      var c :| c in ConfigRefs(v[o]) && InlineAt(v, Some(c)) == Some(x);
      SlotsAreConfigs(v[o], c);
    }
    if k :| 0 <= k < SLOTS && InlineAt(v, SlotRef(v[o], k)) == Some(x) {
      SlotsAreConfigs(v[o], SlotRef(v[o], k).value);
    }
  }

  /** A host delete writes nothing and takes exactly that; every other row of
      the vault stays as it is. */
  lemma DeleteHostTakesExactly(w: View, next: Id, externalId: string, x: Id)
    requires Plannable(w, next) && HostByExternalId(w, externalId).Some?
    ensures
      var o, e := HostByExternalId(w, externalId).value, PlanDeleteHost(w, next, externalId);
      && o in w.data && e.puts == map[] && (x in e.drops <==> TakenAlong(w.data, o, x))
      && (x in w.data && !TakenAlong(w.data, o, x) <==> x in Apply(w.data, e))
      && (x in Apply(w.data, e) ==> Apply(w.data, e)[x] == w.data[x])
  {
    var o := HostByExternalId(w, externalId).value;
    var p := w.data[o];
    assert RefsOk(w.data, p) by { PlannableIsClosed(w, next); }
    SshGoesExactly(w, next, SlotRef(p, 0), x);
    OthersGoExactly(w, SlotRef(p, 1), SlotRef(p, 2), x);
    TakenBySlot(w.data, o, x);
    hide Plannable, DropSsh, DropTelnet, DropWebDav, InlineAt, KeyGoes, InlineOf, ConfigRefs;
    assert (exists k :: 0 <= k < SLOTS && (SlotRef(p, k) == Some(x) || InlineAt(w.data, SlotRef(p, k)) == Some(x))) <==>
      (SlotRef(p, 0) == Some(x) || InlineAt(w.data, SlotRef(p, 0)) == Some(x)
       || SlotRef(p, 1) == Some(x) || InlineAt(w.data, SlotRef(p, 1)) == Some(x)
       || SlotRef(p, 2) == Some(x) || InlineAt(w.data, SlotRef(p, 2)) == Some(x));
  }

  lemma SerialIsNotTaken(w: View, next: Id, o: Id, x: Id)
    requires Plannable(w, next) && o in w.data && w.data[o].HostP? && x != o
    requires x in w.data && (w.data[x].HostP? || w.data[x].SerialConfigP?)
    ensures !TakenAlong(w.data, o, x)
  {
    PlannableIsClosed(w, next);
    hide WellFormed;
    assert RefsOk(w.data, w.data[o]);
  }

  lemma OtherHostFollows(w: View, next: Id, externalId: string, x: Id)
    requires Plannable(w, next) && HostByExternalId(w, externalId).Some?
    requires Some(x) != HostByExternalId(w, externalId)
    ensures FollowsAt(w.data, Apply(w.data, PlanDeleteHost(w, next, externalId)), x)
    ensures IsSerial(w.data, x) ==> IsSerial(Apply(w.data, PlanDeleteHost(w, next, externalId)), x)
  {
    var o := HostByExternalId(w, externalId).value;
    DeleteHostTakesExactly(w, next, externalId, x);
    if x in w.data && (w.data[x].HostP? || w.data[x].SerialConfigP?) { SerialIsNotTaken(w, next, o, x); }
    hide Plannable, PlanDeleteHost, TakenAlong, Apply;
  }

  /** The host a delete is about names a serial config that is there. */
  predicate HasSerial(w: View, externalId: string) {
    var o := HostByExternalId(w, externalId);
    && o.Some? && o.value in w.data && w.data[o.value].HostP?
    && w.data[o.value].host.serialConfigId.Some? && IsSerial(w.data, w.data[o.value].host.serialConfigId.value)
  }

  lemma DeletedHostFollows(w: View, next: Id, externalId: string)
    requires Plannable(w, next) && HostByExternalId(w, externalId).Some? && !HasSerial(w, externalId)
    ensures FollowsAt(w.data, Apply(w.data, PlanDeleteHost(w, next, externalId)), HostByExternalId(w, externalId).value)
  {
    var o := HostByExternalId(w, externalId).value;
    var after := Apply(w.data, PlanDeleteHost(w, next, externalId));
    DeleteHostTakesExactly(w, next, externalId, o);
    forall s | NamesSerial(w.data, o, s)
      ensures !IsSerial(after, s)
    {
      DeleteHostTakesExactly(w, next, externalId, s);
    }
    hide Plannable, PlanDeleteHost, Apply;
  }

  /** A host delete leaves a serial config without its host exactly when the
      host has one: that config is not deleted with it. */
  lemma DeleteHostKeepsSerialsExactly(w: View, next: Id, externalId: string)
    requires Plannable(w, next) && SerialsOwned(w.data)
    ensures SerialsOwned(Apply(w.data, PlanDeleteHost(w, next, externalId))) <==> !HasSerial(w, externalId)
  {
    var after := Apply(w.data, PlanDeleteHost(w, next, externalId));
    var g := HostByExternalId(w, externalId);
    if g.None? {
      assert after == w.data;
    } else if HasSerial(w, externalId) {
      var s := w.data[g.value].host.serialConfigId.value;
      LosesHost(w, next, externalId, s);
    } else {
      hide Plannable, PlanDeleteHost, Apply, FollowsAt, SerialsOwned;
      forall x: Id
        ensures FollowsAt(w.data, after, x)
      {
        if x == g.value { DeletedHostFollows(w, next, externalId); } else { OtherHostFollows(w, next, externalId, x); }
      }
      FollowingKeepsOwned(w.data, after);
    }
  }

  lemma LosesHost(w: View, next: Id, externalId: string, s: Id)
    requires Plannable(w, next) && SerialsOwned(w.data) && HasSerial(w, externalId)
    requires w.data[HostByExternalId(w, externalId).value].host.serialConfigId == Some(s)
    ensures
      var after := Apply(w.data, PlanDeleteHost(w, next, externalId));
      IsSerial(after, s) && !SerialNamed(after, s)
  {
    var o := HostByExternalId(w, externalId).value;
    var after := Apply(w.data, PlanDeleteHost(w, next, externalId));
    OtherHostFollows(w, next, externalId, s);
    DeleteHostTakesExactly(w, next, externalId, o);
    assert NamesSerial(w.data, o, s) && o !in after;
    hide Plannable, PlanDeleteHost, Apply;
    forall x
      ensures !NamesSerial(after, x, s)
    {
      if x != o { OtherHostFollows(w, next, externalId, x); }
    }
  }

  // ----- an input -----

  function ConsoleHost(externalId: string): Host {
    NewHost().(externalId := Some(externalId), serialConfigId := Some(2))
  }

  function Console(externalId: string, serial: string): Vault {
    map[1 := HostP(ConsoleHost(externalId)), 2 := SerialConfigP(serial)]
  }

  /** A vault in order: one host with its serial config. Deleting the host is
      sound as far as the other configs go, and leaves the serial one behind. */
  lemma SerialIsLeftBehind(externalId: string, serial: string)
    ensures
      var v := Console(externalId, serial);
      var w := View(v, [1, 2], {1, 2});
      var e := PlanDeleteHost(w, 3, externalId);
      && Plannable(w, 3) && SerialsOwned(v)
      && Sound(v, e) && Apply(v, e) == map[2 := SerialConfigP(serial)] && !SerialsOwned(Apply(v, e))
  {
    var v := Console(externalId, serial);
    var w := View(v, [1, 2], {1, 2});
    var after := Apply(v, PlanDeleteHost(w, 3, externalId));
    ConsoleInOrder(externalId, serial);
    ConsoleIsFound(externalId, serial);
    hide *;
    DeleteHostIsSound(w, 3, externalId);
    DeleteHostKeepsSerialsExactly(w, 3, externalId);
  }

  lemma ConsoleInOrder(externalId: string, serial: string)
    ensures Plannable(View(Console(externalId, serial), [1, 2], {1, 2}), 3)
  {
  }

  lemma ConsoleIsFound(externalId: string, serial: string)
    ensures
      var v := Console(externalId, serial);
      var w := View(v, [1, 2], {1, 2});
      && SerialsOwned(v) && HasSerial(w, externalId)
      && Apply(v, PlanDeleteHost(w, 3, externalId)) == map[2 := SerialConfigP(serial)]
  {
    var v := Console(externalId, serial);
    var w := View(v, [1, 2], {1, 2});
    assert NamesSerial(v, 1, 2);
    assert HostByExternalId(w, externalId) == Some(1) by { assert w.order[0] == 1 && IsHostNamed(v, externalId, 1); }
    assert Apply(v, PlanDeleteHost(w, 3, externalId)).Keys == {2};
  }

  // ----- the client's edits -----

  lemma SaveOthersFollow(v: Vault, o: Id, owner: Payload, s: seq<Swap>, x: Id)
    requires ClientSave(v, o, owner, s) && |s| == SLOTS && x != o
    ensures FollowsAt(v, Saved(v, o, owner, s), x)
  {
    hide ClientSave, Saved, Makes, Assembled, FollowsAt;
    SaveIsApart(v, o, owner, s);
    ApartMakes(v, o, owner, s);
    SaveIsAssembled(v, o, owner, s);
    OthersFollow(v, AssemblyOf(o, Some(owner), s, map[]), Saved(v, o, owner, s), x);
  }

  /** The host of a form, as saved: an old one or a new one, without a serial config. */
  lemma FormOwner(v: Vault, next: Id, f: HostForm, certKey: CertKeys)
    requires WellFormed(v) && IdsBelow(v, next) && SaveHost(v, next, f, certKey).Ok?
    ensures
      var (w, o, _) := SaveHost(v, next, f, certKey).value;
      && o in w && w[o].HostP? && w[o].host.serialConfigId.None?
      && (if ExistingHost(v, f.id).Some? then f.id == Some(o) else o !in v)
  {
    hide SaveHost, WithoutSerial, After, WellFormed, Sections;
    var s := SaveHasSections(v, next, f, certKey);
    SectionsAreSlots(v, next, f, certKey, s);
  }

  lemma SerialRemoved(v: Vault, id: Option<Id>)
    ensures
      var b := WithoutSerial(v, ExistingHost(v, id));
      && Follows(v, b)
      && (forall s :: id.Some? && NamesSerial(b, id.value, s) ==> !IsSerial(b, s))
      && (forall x :: x !in v ==> x !in b)
  {
  }

  lemma FollowsTransitive(v: Vault, b: Vault, w: Vault)
    requires Follows(v, b) && Follows(b, w)
    ensures Follows(v, w)
  {
    forall x: Id
      ensures FollowsAt(v, w, x)
    {
      assert FollowsAt(v, b, x) && FollowsAt(b, w, x);
      forall s | NamesSerial(v, x, s) && IsSerial(w, s)
        ensures NamesSerial(w, x, s)
      {
        assert FollowsAt(b, w, s);
      }
    }
  }

  lemma GivenUp(b: Vault, w: Vault, o: Id)
    requires o in w && w[o].HostP? && w[o].host.serialConfigId.None?
    requires o in b ==> forall s :: NamesSerial(b, o, s) ==> !IsSerial(b, s)
    requires forall x: Id :: x != o ==> FollowsAt(b, w, x)
    ensures FollowsAt(b, w, o)
  {
    forall s | IsSerial(w, s)
      ensures IsSerial(b, s)
    {
      assert FollowsAt(b, w, s);
    }
  }

  /** Saving a host takes its serial config away and touches no other. */
  lemma SaveHostFollows(v: Vault, next: Id, f: HostForm, certKey: CertKeys)
    requires WellFormed(v) && IdsBelow(v, next) && SaveHost(v, next, f, certKey).Ok?
    ensures Follows(v, SaveHost(v, next, f, certKey).value.0)
  {
    var b, owner, s := SaveTakenApart(v, next, f, certKey);
    var r := SaveHost(v, next, f, certKey).value;
    FormOwner(v, next, f, certKey);
    SerialRemoved(v, f.id);
    hide SaveHost, WithoutSerial, Follows, FollowsAt, Saved, ClientSave, WellFormed, NamesSerial, IsSerial;
    forall x: Id | x != r.1
      ensures FollowsAt(b, r.0, x)
    {
      SaveOthersFollow(b, r.1, owner, s, x);
    }
    GivenUp(b, r.0, r.1);
    FollowsFromEach(b, r.0);
    FollowsTransitive(v, b, r.0);
  }

  lemma FollowsFromEach(v: Vault, w: Vault)
    requires forall x: Id :: FollowsAt(v, w, x)
    ensures Follows(v, w)
  {
  }

  lemma RawFollows(v: Vault, w: Vault, src: Id, copy: Id)
    requires src in v && v[src].HostP?
    ensures Follows(w, RawSsh(v, w, src, copy))
  {
  }

  lemma CopyHostFollows(s: State, id: Id, title: Option<string>, group: Option<Id>, token: bool, ok: bool,
      certKey: CertKeys)
    requires Good(s) && CopyHost(s.rows, s.next, id, title, group, token, ok, certKey).Ok?
    ensures Follows(s.rows, CopyHost(s.rows, s.next, id, title, group, token, ok, certKey).value.0)
  {
    var name := if title.Some? then title.value else s.rows[id].host.name;
    var f := CopyForm(s.rows, id, name, group, token, ok);
    hide SaveHost, CopyForm, RawSsh, Follows, WellFormed;
    SaveHostFollows(s.rows, s.next, f, certKey);
    var r := SaveHost(s.rows, s.next, f, certKey).value;
    RawFollows(s.rows, r.0, id, r.1);
    FollowsTransitive(s.rows, r.0, RawSsh(s.rows, r.0, id, r.1));
  }

  /** A deleted host takes its serial config along. */
  lemma SerialGoes(v: Vault, id: Id, bound: Payload -> Option<Id>, s: Id)
    requires NamesSerial(v, id, s)
    ensures !IsSerial(DeleteHost(v, id, bound), s)
  {
    if IsSerial(v, s) { assert s in Loose(v, id, bound); }
    hide Loose, DropSlot, ConfigOf, InlineOfConfig;
  }

  lemma DeletedHostsFollow(v: Vault, w: Vault, id: Id, x: Id)
    requires Shrunk(v, w) && (x in v && v[x].HostP? && x !in w ==> x == id)
    requires forall s :: NamesSerial(v, id, s) ==> !IsSerial(w, s)
    ensures FollowsAt(v, w, x)
  {
  }

  lemma DeleteHostFollows(v: Vault, id: Id, bound: Payload -> Option<Id>)
    ensures Follows(v, DeleteHost(v, id, bound))
  {
    hide DeleteHost, FollowsAt, NamesSerial, IsSerial;
    DeleteHostTouches(v, id, bound);
    forall s | NamesSerial(v, id, s) ensures !IsSerial(DeleteHost(v, id, bound), s) { SerialGoes(v, id, bound, s); }
    forall x: Id
      ensures FollowsAt(v, DeleteHost(v, id, bound), x)
    {
      DeletedHostsFollow(v, DeleteHost(v, id, bound), id, x);
    }
  }

  lemma OwnerGroupFollows(v: Vault, w: Vault, o: Id)
    requires o in w && w[o].GroupP? && (o in v ==> v[o].GroupP?)
    ensures FollowsAt(v, w, o)
  {
  }

  /** A saved group, in either form. */
  lemma GroupSavedFollows(v: Vault, next: Id, id: Option<Id>, parent: Option<Id>, r: (Vault, Id, Id),
      owner: Payload, s: seq<Swap>)
    requires GroupSaved(v, next, id, parent, r, owner, s)
    ensures Follows(v, r.0)
  {
    GroupSavedOwner(v, next, id, parent, r, owner, s);
    hide GroupSaved, ClientSave, Saved, Follows, FollowsAt;
    forall x: Id
      ensures FollowsAt(v, r.0, x)
    {
      if x == r.1 { OwnerGroupFollows(v, r.0, x); } else { SaveOthersFollow(v, r.1, owner, s, x); }
    }
    FollowsFromEach(v, r.0);
  }

  lemma GroupSavedOwner(v: Vault, next: Id, id: Option<Id>, parent: Option<Id>, r: (Vault, Id, Id),
      owner: Payload, s: seq<Swap>)
    requires GroupSaved(v, next, id, parent, r, owner, s)
    ensures |s| == SLOTS && ClientSave(v, r.1, owner, s) && r.0 == Saved(v, r.1, owner, s)
    ensures r.1 in r.0 && r.0[r.1].GroupP? && (r.1 in v ==> v[r.1].GroupP?)
  {
    SavedOwner(v, r.1, owner, s);
    hide Saved, ClientSlot, WellFormed;
  }

  lemma SavedOwner(v: Vault, o: Id, owner: Payload, s: seq<Swap>)
    requires |s| == SLOTS
    ensures o in Saved(v, o, owner, s) && Saved(v, o, owner, s)[o] == owner
  {
  }

  lemma DeleteGroupFollows(v: Vault, id: Id)
    requires Closed(v)
    ensures Follows(v, HostForms.DeleteGroup(v, id))
  {
    var w := HostForms.DeleteGroup(v, id);
    forall x: Id
      ensures FollowsAt(v, w, x)
    {
      if id in v && v[id].GroupP? {
        if x in v && IsOwner(v[x]) && x != id { HostSaves.DeleteGroupKeepsMembers(v, id, x); }
      }
    }
  }

  lemma GoodParts(s: State)
    requires Good(s)
    ensures WellFormed(s.rows) && Closed(s.rows) && IdsBelow(s.rows, s.next)
  {
  }

  lemma OpFollows(s: State, op: Op, certKey: CertKeys, bound: Payload -> Option<Id>)
    requires Good(s) && Perform(s, op, certKey, bound).Ok?
    ensures Follows(s.rows, Perform(s, op, certKey, bound).value.rows)
  {
    GoodParts(s);
    hide Good, WellFormed, Closed, IdsBelow, SaveHost, CopyHost, SaveGroup, SaveGroupForm, HostForms.DeleteGroup,
         DeleteHost, Follows, GroupSaved;
    match op
    case SaveHostOp(f) => SaveHostFollows(s.rows, s.next, f, certKey);
    case DeleteHostOp(id) => DeleteHostFollows(s.rows, id, bound);
    case DuplicateOp(id, token, ok) =>
      CopyHostFollows(s, id, Some(s.rows[id].host.name + " copy"), s.rows[id].host.groupId, token, ok, certKey);
    case CopyHostOp(id, title, group, token, ok) => CopyHostFollows(s, id, title, group, token, ok, certKey);
    case SaveGroupOp(id, name, parent) =>
      var owner, slots := SaveGroupTakenApart(s.rows, s.next, id, name, parent);
      GroupSavedFollows(s.rows, s.next, id, parent, SaveGroup(s.rows, s.next, id, name, parent).value, owner, slots);
    case SaveGroupFormOp(f) =>
      var owner, slots := SaveGroupFormTakenApart(s.rows, s.next, f, certKey);
      GroupSavedFollows(s.rows, s.next, f.id, f.parentId, SaveGroupForm(s.rows, s.next, f, certKey).value, owner,
        slots);
    case DeleteGroupOp(id) => DeleteGroupFollows(s.rows, id);
  }

  /** Every run of the client's host and group edits, copies included, leaves
      each serial config with exactly one host. */
  lemma {:induction false} RunKeepsSerials(s: State, ops: seq<Op>, certKey: CertKeys, bound: Payload -> Option<Id>)
    requires Good(s) && SerialsOwned(s.rows) && Ran(s, ops, certKey, bound).Some?
    ensures SerialsOwned(Ran(s, ops, certKey, bound).value.rows)
  {
    hide Good, Perform, Fits, SerialsOwned;
    if ops != [] {
      var init := ops[..|ops| - 1];
      RunKeepsSerials(s, init, certKey, bound);
      RanKeepsGood(s, init, certKey, bound);
      var m := Ran(s, init, certKey, bound).value;
      OpFollows(m, ops[|ops| - 1], certKey, bound);
      FollowingKeepsOwned(m.rows, Ran(s, ops, certKey, bound).value.rows);
    }
  }
}
