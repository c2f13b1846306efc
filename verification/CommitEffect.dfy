/** From the plan to the server's log and back: a push that nobody got in the
    way of makes the log read as the edited vault. */
module CommitEffect {
  import opened Wrappers
  import opened Schema
  import opened SyncLog
  import opened VaultMirror
  import opened Plans
  import B = Bridge
  import BridgePlans
  import G = VaultGraph
  import PlanAssembly
  import PlannedHosts
  import PlanSwaps
  import PlanTheorems
  import PlanRepeats

  /** The entities a mirror can read, as the planner gets them. */
  function Readable(entities: map<Id, Entity>): G.Vault {
    map id | id in entities && entities[id].data.Some? && entities[id].data.value.Kind() == entities[id].kind ::
      entities[id].data.value
  }

  /** The vault a log reads as. */
  function ReadAs(log: Log, key: Key, keyVersion: int): G.Vault { Readable(Replay(log, Some(key), keyVersion)) }

  lemma ReplayAppend(log: Log, w: Write, key: Key, keyVersion: int)
    ensures
      var was, after := Replay(log, Some(key), keyVersion), Replay(Append(log, w), Some(key), keyVersion);
      if w.deleted then after == was - {w.id}
      else w.id in after && after == was[w.id := after[w.id]] &&
           after[w.id] == View(Append(log, w)[|log|], Some(key), keyVersion)
  {
    assert Append(log, w)[..|log|] == log;
    ReplayKeepsKey(Mirror(keyVersion, Some(key), 0, map[]), log);
  }

  /** An accepted change is what the log reads for that id from then on. */
  lemma ChangeLands(log: Log, gate: Gate, m: Mirror, key: Key, change: (Id, Payload))
    requires PushItem(log, gate, B.ItemFor(m, key, change)).1 == Accepted
    ensures ReadAs(PushItem(log, gate, B.ItemFor(m, key, change)).0, key, m.keyVersion) ==
              ReadAs(log, key, m.keyVersion)[change.0 := change.1]
  {
    var (id, data) := change;
    var w := Write(id, data.Kind(), false, m.keyVersion, Sealed(key, data.Kind(), id, data));
    ReplayAppend(log, w, key, m.keyVersion);
    var was, after := Replay(log, Some(key), m.keyVersion), Replay(Append(log, w), Some(key), m.keyVersion);
    assert after[id].data == Some(data) && after[id].kind == data.Kind();
    assert Readable(after) == Readable(was)[id := data];
  }

  lemma DeletedReadsAsNothing(log: Log, key: Key, keyVersion: int, id: Id)
    requires Current(log, id).Some? && Current(log, id).value.deleted
    ensures id !in Replay(log, Some(key), keyVersion)
  {
    ReplayIsFaithful(log, Some(key), keyVersion, |log|);
    assert log[..|log|] == log;
    var i :| 0 <= i < |log| && log[i] == Current(log, id).value && Latest(log, i);
  }

  /** An accepted delete takes the id out of what the log reads. */
  lemma DropLands(log: Log, gate: Gate, key: Key, keyVersion: int, id: Id, base: nat)
    requires PushItem(log, gate, Drop(id, base)).1 == Accepted
    ensures ReadAs(PushItem(log, gate, Drop(id, base)).0, key, keyVersion) == ReadAs(log, key, keyVersion) - {id}
  {
    var e := Current(log, id).value;
    if e.deleted {
      DeletedReadsAsNothing(log, key, keyVersion, id);
    } else {
      ReplayAppend(log, Write(id, e.kind, true, e.keyVersion, Junk), key, keyVersion);
    }
  }

  lemma {:induction false} PushConcat(log: Log, gate: Gate, a: seq<Item>, b: seq<Item>)
    ensures PushItems(log, gate, a + b).0 == PushItems(PushItems(log, gate, a).0, gate, b).0
    ensures PushItems(log, gate, a + b).1 == PushItems(log, gate, a).1 + PushItems(PushItems(log, gate, a).0, gate, b).1
  {
    if b == [] {
      assert a + b == a;
    } else {
      assert (a + b)[..|a + b| - 1] == a + b[..|b| - 1];
      PushConcat(log, gate, a, b[..|b| - 1]);
    }
  }

  /** A push that was accepted whole was accepted up to its last item, and then that one was. */
  lemma AcceptedSplit(log: Log, gate: Gate, init: seq<Item>, item: Item)
    requires B.AllAccepted(PushItems(log, gate, init + [item]).1)
    ensures B.AllAccepted(PushItems(log, gate, init).1)
    ensures PushItem(PushItems(log, gate, init).0, gate, item).1 == Accepted
    ensures PushItems(log, gate, init + [item]).0 == PushItem(PushItems(log, gate, init).0, gate, item).0
  {
    var all := init + [item];
    assert all[..|all| - 1] == init;
    var (before, outcomes) := PushItems(log, gate, init);
    var last := PushItem(before, gate, item).1;
    assert PushItems(log, gate, all).1 == outcomes + [last];
    assert last in outcomes + [last] && forall o :: o in outcomes ==> o in outcomes + [last];
  }

  lemma ChangeItemsStep(m: Mirror, key: Key, changes: seq<(Id, Payload)>)
    requires changes != []
    ensures
      var n := |changes| - 1;
      B.ChangeItems(m, key, changes) == B.ChangeItems(m, key, changes[..n]) + [B.ItemFor(m, key, changes[n])]
  {
  }

  lemma NothingPushed(log: Log, gate: Gate, m: Mirror, key: Key)
    ensures PushItems(log, gate, B.ChangeItems(m, key, [])).0 == log && PutsOf([]) == map[]
  {
    assert B.ChangeItems(m, key, []) == [];
  }

  lemma PutsOfLast(changes: seq<(Id, Payload)>)
    requires changes != []
    ensures
      var n := |changes| - 1;
      PutsOf(changes) == PutsOf(changes[..n])[changes[n].0 := changes[n].1]
  {
  }

  lemma PutLast(v: G.Vault, puts: map<Id, Payload>, id: Id, p: Payload)
    ensures (v + puts)[id := p] == v + puts[id := p]
  {
  }

  lemma {:induction false} ChangesLand(log: Log, gate: Gate, m: Mirror, key: Key, changes: seq<(Id, Payload)>)
    requires B.AllAccepted(PushItems(log, gate, B.ChangeItems(m, key, changes)).1)
    ensures ReadAs(PushItems(log, gate, B.ChangeItems(m, key, changes)).0, key, m.keyVersion) ==
              ReadAs(log, key, m.keyVersion) + PutsOf(changes)
  {
    hide *;
    if changes == [] {
      NothingPushed(log, gate, m, key);
    } else {
      var n := |changes| - 1;
      ChangeItemsStep(m, key, changes);
      var init, last := B.ChangeItems(m, key, changes[..n]), B.ItemFor(m, key, changes[n]);
      AcceptedSplit(log, gate, init, last);
      ChangesLand(log, gate, m, key, changes[..n]);
      ChangeLands(PushItems(log, gate, init).0, gate, m, key, changes[n]);
      PutsOfLast(changes);
      PutLast(ReadAs(log, key, m.keyVersion), PutsOf(changes[..n]), changes[n].0, changes[n].1);
    }
  }

  /** The ids of a list of deletes that the mirror knows. */
  function Known(m: Mirror, deletes: seq<Id>): set<Id> { set id | id in deletes && m.VersionOf(id).Some? }

  lemma KnownStep(m: Mirror, deletes: seq<Id>)
    requires deletes != []
    ensures
      var rest, id := deletes[..|deletes| - 1], deletes[|deletes| - 1];
      Known(m, deletes) == Known(m, rest) + if m.VersionOf(id).Some? then {id} else {}
  {
    var rest, id := deletes[..|deletes| - 1], deletes[|deletes| - 1];
    assert deletes == rest + [id];
  }

  lemma {:induction false} DropsLand(log: Log, gate: Gate, m: Mirror, key: Key, deletes: seq<Id>)
    requires B.AllAccepted(PushItems(log, gate, B.DropItems(m, deletes)).1)
    ensures ReadAs(PushItems(log, gate, B.DropItems(m, deletes)).0, key, m.keyVersion) ==
              ReadAs(log, key, m.keyVersion) - Known(m, deletes)
  {
    if deletes != [] {
      hide PushItems, PushItem, B.AllAccepted, ReadAs, Known;
      var rest, id := deletes[..|deletes| - 1], deletes[|deletes| - 1];
      var items := B.DropItems(m, rest);
      KnownStep(m, deletes);
      if m.VersionOf(id).None? {
        assert B.DropItems(m, deletes) == items + [] == items;
        DropsLand(log, gate, m, key, rest);
      } else {
        var base := m.VersionOf(id).value;
        assert B.DropItems(m, deletes) == items + [Drop(id, base)];
        AcceptedSplit(log, gate, items, Drop(id, base));
        DropsLand(log, gate, m, key, rest);
        DropLands(PushItems(log, gate, items).0, gate, key, m.keyVersion, id, base);
      }
    } else {
      assert B.DropItems(m, deletes) == [] && Known(m, deletes) == {};
    }
  }

  /** What a plan asks for, as an edit. */
  function EditOf(plan: Plan): BridgePlans.Edit { BridgePlans.Edit(PutsOf(plan.changes), DropsOf(plan.deletes), 0) }

  /** A push that was accepted whole, whatever log it met: the log then reads as
      before with the plan's payloads, less the deletes the mirror knew. */
  lemma AcceptedPushEdits(a: B.Attempt, key: Key)
    requires B.Sound(a) && B.AllAccepted(a.outcomes) && a.seen.key == Some(key)
    ensures ReadAs(PushItems(a.before, a.gate, a.items).0, key, a.seen.keyVersion) ==
              (ReadAs(a.before, key, a.seen.keyVersion) + PutsOf(a.plan.changes)) - Known(a.seen, a.plan.deletes)
  {
    var puts, drops := B.ChangeItems(a.seen, key, a.plan.changes), B.DropItems(a.seen, a.plan.deletes);
    SentItems(a, key);
    hide PushItems, B.Sound, B.SealedItems, Replay, B.ChangeItems, B.DropItems;
    PushConcat(a.before, a.gate, puts, drops);
    var mid := PushItems(a.before, a.gate, puts).0;
    BothAccepted(PushItems(a.before, a.gate, puts).1, PushItems(mid, a.gate, drops).1);
    ChangesLand(a.before, a.gate, a.seen, key, a.plan.changes);
    DropsLand(mid, a.gate, a.seen, key, a.plan.deletes);
  }

  /** On the very rows its plan was built from, it makes the log read exactly as
      the plan's edit of what was seen. */
  lemma AcceptedPushIsTheEdit(a: B.Attempt, key: Key)
    requires B.Sound(a) && B.AllAccepted(a.outcomes) && a.seen.key == Some(key)
    requires a.seen.entities == Replay(a.before, Some(key), a.seen.keyVersion)
    requires PutsOf(a.plan.changes).Keys !! DropsOf(a.plan.deletes)
    ensures ReadAs(PushItems(a.before, a.gate, a.items).0, key, a.seen.keyVersion) ==
              BridgePlans.Apply(Readable(a.seen.entities), EditOf(a.plan))
  {
    hide PushItems, B.Sound, B.AllAccepted, Replay, Known, PutsOf, DropsOf;
    AcceptedPushEdits(a, key);
    KnownDrops(a.seen, PutsOf(a.plan.changes), a.plan.deletes);
  }

  /** A plan that deletes only what the mirror knows makes an edit of any log it
      is accepted on. */
  lemma AcceptedOnAnyLog(a: B.Attempt, key: Key)
    requires B.Sound(a) && B.AllAccepted(a.outcomes) && a.seen.key == Some(key)
    requires DropsOf(a.plan.deletes) <= a.seen.entities.Keys
    ensures ReadAfter(a, key) == BridgePlans.Apply(ReadAs(a.before, key, a.seen.keyVersion), EditOf(a.plan))
  {
    assert Known(a.seen, a.plan.deletes) == DropsOf(a.plan.deletes) by { AllKnown(a.seen, a.plan.deletes); }
    hide PushItems, B.Sound, B.AllAccepted, Replay, Known, PutsOf, DropsOf;
    AcceptedPushEdits(a, key);
  }

  lemma AllKnown(m: Mirror, deletes: seq<Id>)
    requires DropsOf(deletes) <= m.entities.Keys
    ensures Known(m, deletes) == DropsOf(deletes)
  {
    forall id | id in deletes
      ensures m.VersionOf(id).Some?
    {
      assert id in DropsOf(deletes);
    }
  }

  lemma SentItems(a: B.Attempt, key: Key)
    requires B.Sound(a) && a.seen.key == Some(key)
    ensures a.items == B.ChangeItems(a.seen, key, a.plan.changes) + B.DropItems(a.seen, a.plan.deletes)
    ensures a.outcomes == PushItems(a.before, a.gate, a.items).1
  {
  }

  lemma BothAccepted(x: seq<Outcome>, y: seq<Outcome>)
    requires B.AllAccepted(x + y)
    ensures B.AllAccepted(x) && B.AllAccepted(y)
  {
    assert forall o :: o in x ==> o in x + y;
    assert forall o :: o in y ==> o in x + y;
  }

  /** A delete of an id the mirror does not know changes nothing it reads. */
  lemma KnownDrops(m: Mirror, puts: map<Id, Payload>, deletes: seq<Id>)
    requires puts.Keys !! DropsOf(deletes)
    ensures (Readable(m.entities) + puts) - Known(m, deletes) ==
              (Readable(m.entities) + puts) - DropsOf(deletes)
  {
  }

  /** The vault view a planner has on a mirror. */
  function ViewOf(m: Mirror, order: seq<Id>): BridgePlans.View {
    BridgePlans.View(Readable(m.entities), order, m.entities.Keys)
  }

  /** The push that an attempt made was accepted whole, on the very rows its
      plan was built from, and its plan is the edit `e`. */
  ghost predicate LandedEdit(a: B.Attempt, key: Key, e: BridgePlans.Edit) {
    && B.Sound(a) && B.AllAccepted(a.outcomes) && a.seen.key == Some(key)
    && a.seen.entities == Replay(a.before, Some(key), a.seen.keyVersion)
    && e.puts == PutsOf(a.plan.changes) && e.drops == DropsOf(a.plan.deletes)
  }

  /** What the log reads as after the push. */
  function ReadAfter(a: B.Attempt, key: Key): G.Vault {
    ReadAs(PushItems(a.before, a.gate, a.items).0, key, a.seen.keyVersion)
  }

  lemma EditLands(a: B.Attempt, key: Key, e: BridgePlans.Edit)
    requires LandedEdit(a, key, e) && e.puts.Keys !! e.drops
    ensures ReadAfter(a, key) == BridgePlans.Apply(Readable(a.seen.entities), e)
  {
    AcceptedPushIsTheEdit(a, key);
    assert BridgePlans.Apply(Readable(a.seen.entities), EditOf(a.plan)) ==
      BridgePlans.Apply(Readable(a.seen.entities), e);
  }

  ghost predicate HasHost(v: G.Vault, externalId: string) { exists id :: BridgePlans.IsHostNamed(v, externalId, id) }

  ghost predicate HasGroup(v: G.Vault, externalId: string) { exists id :: BridgePlans.IsGroupNamed(v, externalId, id) }

  /** End to end: a host upsert built on a readable, well-formed vault and
      accepted on the rows it was built from leaves a log that reads as a
      well-formed vault with unique names that holds the host as requested. */
  lemma HostUpsertLands(
    a: B.Attempt, key: Key, order: seq<Id>, next: Id,
    externalId: string, req: BridgePlans.HostRequest, fold: string -> string)
    requires PlanSwaps.Plannable(ViewOf(a.seen, order), next) && PlanTheorems.NoTelnetKey(req.telnet)
    requires PlanRepeats.NamesUnique(Readable(a.seen.entities), fold)
    requires BridgePlans.PlanHost(ViewOf(a.seen, order), next, externalId, req, fold).Ok?
    requires LandedEdit(a, key, BridgePlans.PlanHost(ViewOf(a.seen, order), next, externalId, req, fold).value)
    ensures ReadAfter(a, key) == BridgePlans.Apply(Readable(a.seen.entities),
                                                   BridgePlans.PlanHost(ViewOf(a.seen, order), next, externalId, req,
                                                     fold).value)
    ensures G.WellFormed(ReadAfter(a, key)) && PlanRepeats.NamesUnique(ReadAfter(a, key), fold)
    ensures HasHost(ReadAfter(a, key), externalId)
    ensures PlannedHosts.HostStored(Readable(a.seen.entities), ReadAfter(a, key), externalId, req, fold)
  {
    var w := ViewOf(a.seen, order);
    ViewData(a.seen, order);
    hide *;
    PlanTheorems.HostPlanIsSound(w, next, externalId, req, fold);
    PlanRepeats.HostPlanKeepsNames(w, next, externalId, req, fold);
    HostIsNamed(w, next, externalId, req, fold);
    PlannedHosts.PlannedHostIsStored(w, next, externalId, req, fold);
    SoundParts(w.data, BridgePlans.PlanHost(w, next, externalId, req, fold).value);
    EditLands(a, key, BridgePlans.PlanHost(w, next, externalId, req, fold).value);
  }

  lemma ViewData(m: Mirror, order: seq<Id>)
    ensures ViewOf(m, order).data == Readable(m.entities)
  {
  }

  lemma SoundParts(v: G.Vault, e: BridgePlans.Edit)
    requires PlanTheorems.Sound(v, e)
    ensures e.puts.Keys !! e.drops && G.WellFormed(BridgePlans.Apply(v, e))
  {
  }

  lemma HostIsNamed(
    w: BridgePlans.View, next: Id, externalId: string, req: BridgePlans.HostRequest, fold: string -> string)
    requires PlanSwaps.Plannable(w, next) && PlanTheorems.NoTelnetKey(req.telnet)
    requires BridgePlans.PlanHost(w, next, externalId, req, fold).Ok?
    ensures HasHost(BridgePlans.Apply(w.data, BridgePlans.PlanHost(w, next, externalId, req, fold).value), externalId)
  {
    var e, p := PlanRepeats.HostPlanFacts(w, next, externalId, req, fold);
    PlanRepeats.SlotsTook(w.data, p, BridgePlans.Apply(w.data, e));
    assert BridgePlans.IsHostNamed(BridgePlans.Apply(w.data, e), externalId, p.o);
  }

  /** So does a group upsert. */
  lemma GroupUpsertLands(
    a: B.Attempt, key: Key, order: seq<Id>, next: Id,
    externalId: string, req: BridgePlans.GroupRequest, fold: string -> string)
    requires PlanSwaps.Plannable(ViewOf(a.seen, order), next) && PlanTheorems.NoTelnetKey(req.telnet)
    requires PlanRepeats.NamesUnique(Readable(a.seen.entities), fold)
    requires BridgePlans.PlanGroup(ViewOf(a.seen, order), next, externalId, req).Ok?
    requires LandedEdit(a, key, BridgePlans.PlanGroup(ViewOf(a.seen, order), next, externalId, req).value)
    ensures ReadAfter(a, key) == BridgePlans.Apply(Readable(a.seen.entities),
                                                   BridgePlans.PlanGroup(ViewOf(a.seen, order), next, externalId,
                                                     req).value)
    ensures G.WellFormed(ReadAfter(a, key)) && PlanRepeats.NamesUnique(ReadAfter(a, key), fold)
    ensures HasGroup(ReadAfter(a, key), externalId)
    ensures PlannedHosts.GroupStored(Readable(a.seen.entities), ReadAfter(a, key), externalId, req)
  {
    var w := ViewOf(a.seen, order);
    ViewData(a.seen, order);
    hide *;
    PlanTheorems.GroupPlanIsSound(w, next, externalId, req);
    PlanRepeats.GroupPlanKeepsNames(w, next, externalId, req, fold);
    GroupIsNamed(w, next, externalId, req);
    PlannedHosts.PlannedGroupIsStored(w, next, externalId, req);
    SoundParts(w.data, BridgePlans.PlanGroup(w, next, externalId, req).value);
    EditLands(a, key, BridgePlans.PlanGroup(w, next, externalId, req).value);
  }

  lemma GroupIsNamed(w: BridgePlans.View, next: Id, externalId: string, req: BridgePlans.GroupRequest)
    requires PlanSwaps.Plannable(w, next) && PlanTheorems.NoTelnetKey(req.telnet)
    requires BridgePlans.PlanGroup(w, next, externalId, req).Ok?
    ensures HasGroup(BridgePlans.Apply(w.data, BridgePlans.PlanGroup(w, next, externalId, req).value), externalId)
  {
    var e, p := PlanRepeats.GroupPlanFacts(w, next, externalId, req);
    PlanRepeats.SlotsTook(w.data, p, BridgePlans.Apply(w.data, e));
    assert BridgePlans.IsGroupNamed(BridgePlans.Apply(w.data, e), externalId, p.o);
  }

  // ----- deletes -----

  /** Every payload left was there before, of the same sort and under the same name. */
  predicate KeepsName(was: Payload, now: Payload) {
    match now
    case HostP(h) => was.HostP? && was.host.externalId == h.externalId
    case GroupP(g) => was.GroupP? && was.group.externalId == g.externalId
    case TagP(t) => was == now
    case _ => true
  }

  ghost predicate OnlyOldNames(v: G.Vault, w: G.Vault) {
    forall x :: x in w ==> x in v && KeepsName(v[x], w[x])
  }

  lemma OldNamesStayUnique(v: G.Vault, w: G.Vault, fold: string -> string)
    requires OnlyOldNames(v, w) && PlanRepeats.NamesUnique(v, fold)
    ensures PlanRepeats.NamesUnique(w, fold)
  {
  }

  lemma DeleteHostKeepsNames(w: BridgePlans.View, next: Id, externalId: string)
    ensures OnlyOldNames(w.data, BridgePlans.Apply(w.data, BridgePlans.PlanDeleteHost(w, next, externalId)))
  {
  }

  lemma DeleteGroupKeepsNames(w: BridgePlans.View, next: Id, externalId: string)
    ensures OnlyOldNames(w.data, BridgePlans.Apply(w.data, BridgePlans.PlanDeleteGroup(w, next, externalId)))
  {
  }

  /** With unique names, deleting the host first found leaves none of that name. */
  lemma DeletedHostIsGone(w: BridgePlans.View, next: Id, externalId: string)
    requires w.Valid() && PlanRepeats.HostNamesUnique(w.data)
    ensures !HasHost(BridgePlans.Apply(w.data, BridgePlans.PlanDeleteHost(w, next, externalId)), externalId)
  {
    var after := BridgePlans.Apply(w.data, BridgePlans.PlanDeleteHost(w, next, externalId));
    forall id
      ensures !BridgePlans.IsHostNamed(after, externalId, id)
    {
      if BridgePlans.IsHostNamed(w.data, externalId, id) { PlanRepeats.HostNameFound(w, externalId, id); }
    }
  }

  lemma DeletedGroupIsGone(w: BridgePlans.View, next: Id, externalId: string)
    requires w.Valid() && PlanRepeats.GroupNamesUnique(w.data)
    ensures !HasGroup(BridgePlans.Apply(w.data, BridgePlans.PlanDeleteGroup(w, next, externalId)), externalId)
  {
    var after := BridgePlans.Apply(w.data, BridgePlans.PlanDeleteGroup(w, next, externalId));
    DeleteGroupKeepsNames(w, next, externalId);
    forall id
      ensures !BridgePlans.IsGroupNamed(after, externalId, id)
    {
      if BridgePlans.IsGroupNamed(w.data, externalId, id) { PlanRepeats.GroupNameFound(w, externalId, id); }
    }
  }

  lemma PlannableNames(w: BridgePlans.View, next: Id, fold: string -> string)
    requires PlanSwaps.Plannable(w, next) && PlanRepeats.NamesUnique(w.data, fold)
    ensures w.Valid() && PlanRepeats.HostNamesUnique(w.data) && PlanRepeats.GroupNamesUnique(w.data)
  {
  }

  /** A host delete accepted on the rows it was built from leaves a log that
      reads as a well-formed vault without a host of that name. */
  lemma DeleteHostLands(
    a: B.Attempt, key: Key, order: seq<Id>, next: Id, externalId: string, fold: string -> string)
    requires PlanSwaps.Plannable(ViewOf(a.seen, order), next)
    requires PlanRepeats.NamesUnique(Readable(a.seen.entities), fold)
    requires LandedEdit(a, key, BridgePlans.PlanDeleteHost(ViewOf(a.seen, order), next, externalId))
    ensures ReadAfter(a, key) == BridgePlans.Apply(Readable(a.seen.entities),
                                                   BridgePlans.PlanDeleteHost(ViewOf(a.seen, order), next, externalId))
    ensures G.WellFormed(ReadAfter(a, key)) && PlanRepeats.NamesUnique(ReadAfter(a, key), fold)
    ensures !HasHost(ReadAfter(a, key), externalId)
  {
    var w := ViewOf(a.seen, order);
    var e := BridgePlans.PlanDeleteHost(w, next, externalId);
    ViewData(a.seen, order);
    hide *;
    PlannableNames(w, next, fold);
    PlanTheorems.DeleteHostIsSound(w, next, externalId);
    SoundParts(w.data, e);
    EditLands(a, key, e);
    DeleteHostKeepsNames(w, next, externalId);
    OldNamesStayUnique(w.data, BridgePlans.Apply(w.data, e), fold);
    DeletedHostIsGone(w, next, externalId);
  }

  /** `x` sits where it sat, or in the parent of the deleted group `g` if it sat in `g`. */
  ghost predicate MovedUp(v: G.Vault, w: G.Vault, g: Id, x: Id) {
    && x in v && g in v && x in w
    && w[x] == PlanAssembly.Regrouped(v[x], if G.GroupRef(v[x]) == Some(g) then G.GroupRef(v[g]) else G.GroupRef(v[x]))
  }

  /** A group delete does the same, and every host and other group is still
      there: where it was, or moved up from the group that went. */
  lemma DeleteGroupLands(
    a: B.Attempt, key: Key, order: seq<Id>, next: Id, externalId: string, fold: string -> string)
    requires PlanSwaps.Plannable(ViewOf(a.seen, order), next)
    requires PlanRepeats.NamesUnique(Readable(a.seen.entities), fold)
    requires !PlanTheorems.OwnParent(Readable(a.seen.entities),
                                     BridgePlans.GroupByExternalId(ViewOf(a.seen, order), externalId))
    requires LandedEdit(a, key, BridgePlans.PlanDeleteGroup(ViewOf(a.seen, order), next, externalId))
    ensures ReadAfter(a, key) == BridgePlans.Apply(Readable(a.seen.entities),
                                                   BridgePlans.PlanDeleteGroup(ViewOf(a.seen, order), next, externalId))
    ensures G.WellFormed(ReadAfter(a, key)) && PlanRepeats.NamesUnique(ReadAfter(a, key), fold)
    ensures !HasGroup(ReadAfter(a, key), externalId)
    ensures
      var g := BridgePlans.GroupByExternalId(ViewOf(a.seen, order), externalId);
      forall x ::
        g.Some? && x in Readable(a.seen.entities) && Some(x) != g && G.IsOwner(Readable(a.seen.entities)[x]) ==>
        MovedUp(Readable(a.seen.entities), ReadAfter(a, key), g.value, x)
  {
    var w := ViewOf(a.seen, order);
    var e := BridgePlans.PlanDeleteGroup(w, next, externalId);
    ViewData(a.seen, order);
    DeleteGroupMovesUp(w, next, externalId);
    hide *;
    PlannableNames(w, next, fold);
    PlanTheorems.DeleteGroupIsSoundExactly(w, next, externalId);
    SoundParts(w.data, e);
    EditLands(a, key, e);
    DeleteGroupKeepsNames(w, next, externalId);
    OldNamesStayUnique(w.data, BridgePlans.Apply(w.data, e), fold);
    DeletedGroupIsGone(w, next, externalId);
  }

  lemma DeleteGroupMovesUp(w: BridgePlans.View, next: Id, externalId: string)
    requires PlanSwaps.Plannable(w, next)
    ensures
      var g := BridgePlans.GroupByExternalId(w, externalId);
      forall x :: g.Some? && x in w.data && Some(x) != g && G.IsOwner(w.data[x]) ==>
        MovedUp(w.data, BridgePlans.Apply(w.data, BridgePlans.PlanDeleteGroup(w, next, externalId)), g.value, x)
  {
    var g := BridgePlans.GroupByExternalId(w, externalId);
    forall x | g.Some? && x in w.data && Some(x) != g && G.IsOwner(w.data[x])
      ensures MovedUp(w.data, BridgePlans.Apply(w.data, BridgePlans.PlanDeleteGroup(w, next, externalId)), g.value, x)
    {
      PlanTheorems.DeleteGroupKeepsMembers(w, next, externalId, x);
    }
  }
}
