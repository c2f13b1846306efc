/** REST writes from end to end: the planners, run by the commit loop. What a
    successful answer says about the log, and when it says something false. */
module WriteRequests {
  import opened Wrappers
  import opened Schema
  import opened SyncLog
  import opened VaultMirror
  import opened SyncServer
  import opened Plans
  import opened BridgePlans
  import opened CommitEffect
  import B = Bridge
  import G = VaultGraph
  import N = NamesExactly
  import PlanBuilder
  import PlannedHosts
  import PlanRepeats
  import PlanSwaps
  import PlanTheorems
  import S = SerialConfigs
  import opened Text

  /** What a request plans on a view, given whether the mirror has its key, with
      the ids from `next` on still unused. */
  type Planner = (View, bool, Id) -> Result<Edit, PlanError>

  function HostDelete(externalId: string): Planner {
    (w: View, held: bool, next: Id) => Ok(PlanDeleteHost(w, next, externalId))
  }

  function GroupDelete(externalId: string): Planner {
    (w: View, held: bool, next: Id) => Ok(PlanDeleteGroup(w, next, externalId))
  }

  /** An upsert needs the vault's key before it looks at anything. */
  function HostUpsert(externalId: string, req: HostRequest, fold: string -> string): Planner {
    (w: View, held: bool, next: Id) => if held then PlanHost(w, next, externalId, req, fold) else Err(NoKey)
  }

  function GroupUpsert(externalId: string, req: GroupRequest): Planner {
    (w: View, held: bool, next: Id) => if held then PlanGroup(w, next, externalId, req) else Err(NoKey)
  }

  ghost predicate Carries(p: Plan, e: Edit) { PutsOf(p.changes) == e.puts && DropsOf(p.deletes) == e.drops }

  /** `r` is what the planner asks for on `m`, on the view that this order of the
      hash map gives, with ids that are unused. */
  ghost predicate Answers(m: Mirror, r: Result<Plan, PlanError>, planner: Planner, order: seq<Id>, next: Id) {
    && ViewOf(m, order).Valid() && (forall id :: id in m.entities ==> id < next)
    && match planner(ViewOf(m, order), m.key.Some?, next)
       case Ok(e) => r.Ok? && Carries(r.value, e)
       case Err(x) => r == Err(x)
  }

  ghost predicate BuiltOn(build: B.Build, k: nat, m: Mirror, planner: Planner, order: seq<Id>, next: Id) {
    Answers(m, build(k, m), planner, order, next)
  }

  ghost predicate BuiltAt(build: B.Build, k: nat, m: Mirror, planner: Planner) {
    exists order, next :: BuiltOn(build, k, m, planner, order, next)
  }

  ghost predicate Builds(build: B.Build, planner: Planner) {
    forall k: nat, m: Mirror :: BuiltAt(build, k, m, planner)
  }

  lemma BuiltFrom(build: B.Build, k: nat, m: Mirror, planner: Planner) returns (order: seq<Id>, next: Id)
    requires Builds(build, planner)
    ensures BuiltOn(build, k, m, planner, order, next)
  {
    assert BuiltAt(build, k, m, planner);
    order, next :| BuiltOn(build, k, m, planner, order, next);
  }

  // ----- the program's builders are such -----

  /** The program's own planning of each request, whatever order it reads the
      mirror in and whether it has the key or not, is such an answer. */
  method AnswerHostUpsert(
    m: Mirror, order: seq<Id>, next: Id, externalId: string, req: HostRequest, fold: string -> string)
    returns (r: Result<Plan, PlanError>)
    requires ViewOf(m, order).Valid() && forall id :: id in m.entities ==> id < next
    ensures Answers(m, r, HostUpsert(externalId, req, fold), order, next)
  {
    ghost var drawn;
    r, drawn := PlanBuilder.BuildHost(ViewOf(m, order), m.key.Some?, next, externalId, req, fold);
  }

  method AnswerGroupUpsert(m: Mirror, order: seq<Id>, next: Id, externalId: string, req: GroupRequest)
    returns (r: Result<Plan, PlanError>)
    requires ViewOf(m, order).Valid() && forall id :: id in m.entities ==> id < next
    ensures Answers(m, r, GroupUpsert(externalId, req), order, next)
  {
    ghost var drawn;
    r, drawn := PlanBuilder.BuildGroup(ViewOf(m, order), m.key.Some?, next, externalId, req);
  }

  method AnswerHostDelete(m: Mirror, order: seq<Id>, next: Id, externalId: string) returns (r: Result<Plan, PlanError>)
    requires ViewOf(m, order).Valid() && forall id :: id in m.entities ==> id < next
    ensures Answers(m, r, HostDelete(externalId), order, next)
  {
    var plan := PlanBuilder.BuildDeleteHost(ViewOf(m, order), next, externalId);
    r := Ok(plan);
  }

  method AnswerGroupDelete(m: Mirror, order: seq<Id>, next: Id, externalId: string)
    returns (r: Result<Plan, PlanError>)
    requires ViewOf(m, order).Valid() && forall id :: id in m.entities ==> id < next
    ensures Answers(m, r, GroupDelete(externalId), order, next)
  {
    var plan := PlanBuilder.BuildDeleteGroup(ViewOf(m, order), next, externalId);
    r := Ok(plan);
  }

  /** Some order of the mirror, some unused ids and a plan that carries the edit. */
  ghost predicate Answered(m: Mirror, r: Result<Plan, PlanError>, planner: Planner) {
    exists order, next :: Answers(m, r, planner, order, next)
  }

  lemma {:induction false} ListOf(s: set<Id>) returns (order: seq<Id>)
    ensures forall id :: id in s <==> id in order
  {
    order := [];
    if s != {} {
      var x :| x in s;
      var rest := ListOf(s - {x});
      order := rest + [x];
    }
  }

  lemma {:induction false} AboveAll(s: set<Id>) returns (next: Id)
    ensures forall id :: id in s ==> id < next
  {
    next := 0;
    if s != {} {
      var x :| x in s;
      var rest := AboveAll(s - {x});
      next := if rest <= x then x + 1 else rest;
      assert forall id :: id in s ==> id == x || id in s - {x};
    }
  }

  lemma {:induction false} ChangesOf(puts: map<Id, Payload>) returns (changes: seq<(Id, Payload)>)
    ensures PutsOf(changes) == puts
    decreases |puts|
  {
    changes := [];
    if puts != map[] {
      var x :| x in puts;
      assert puts.Keys - {x} == (puts - {x}).Keys;
      var rest := ChangesOf(puts - {x});
      changes := rest + [(x, puts[x])];
      PutsOfAppend(rest, x, puts[x]);
    }
  }

  lemma AnswerExists(m: Mirror, planner: Planner) returns (r: Result<Plan, PlanError>)
    ensures Answered(m, r, planner)
  {
    var order := ListOf(Readable(m.entities).Keys);
    var next := AboveAll(m.entities.Keys);
    match planner(ViewOf(m, order), m.key.Some?, next) {
      case Err(x) =>
        r := Err(x);
      case Ok(e) =>
        var changes := ChangesOf(e.puts);
        var deletes := ListOf(e.drops);
        r := Ok(Plan(changes, deletes));
        assert Carries(r.value, e);
    }
    assert Answers(m, r, planner, order, next);
  }

  ghost function SomeAnswer(m: Mirror, planner: Planner): (r: Result<Plan, PlanError>)
    ensures Answered(m, r, planner)
  {
    AnswerIsThere(m, planner);
    var r :| Answered(m, r, planner);
    r
  }

  lemma AnswerIsThere(m: Mirror, planner: Planner)
    ensures exists r :: Answered(m, r, planner)
  {
    var r := AnswerExists(m, planner);
  }

  /** Every request has a builder. */
  lemma BuilderExists(planner: Planner)
    ensures exists build: B.Build :: Builds(build, planner)
  {
    var build: B.Build := (k: nat, m: Mirror) => SomeAnswer(m, planner);
    forall k: nat, m: Mirror
      ensures BuiltAt(build, k, m, planner)
    {
      var order, next :| Answers(m, build(k, m), planner, order, next);
      assert BuiltOn(build, k, m, planner, order, next);
    }
    assert Builds(build, planner);
  }

  // ----- the last push landed -----

  /** Every row the mirror holds is readable, and the vault is in order. */
  ghost predicate InOrder(m: Mirror, fold: string -> string) {
    && Readable(m.entities).Keys == m.entities.Keys
    && G.WellFormed(Readable(m.entities)) && PlanRepeats.NamesUnique(Readable(m.entities), fold)
  }

  /** Nobody wrote between the last pull and the last push, which was accepted. */
  ghost predicate LandedUndisturbed(attempts: seq<B.Attempt>, build: B.Build, key: Key, fold: string -> string) {
    && B.LastAccepted(attempts) && B.EachFromItsMirror(attempts, build)
    && var a := attempts[|attempts| - 1];
       && a.seen.key == Some(key) && a.seen.entities == Replay(a.before, Some(key), a.seen.keyVersion)
       && InOrder(a.seen, fold)
  }

  lemma LastAttempt(
    attempts: seq<B.Attempt>, build: B.Build, key: Key, fold: string -> string, planner: Planner)
    returns (order: seq<Id>, next: Id)
    requires LandedUndisturbed(attempts, build, key, fold) && Builds(build, planner)
    ensures
      var a := attempts[|attempts| - 1];
      && PlanSwaps.Plannable(ViewOf(a.seen, order), next)
      && planner(ViewOf(a.seen, order), true, next).Ok?
      && LandedEdit(a, key, planner(ViewOf(a.seen, order), true, next).value)
  {
    var a := attempts[|attempts| - 1];
    order, next := BuiltFrom(build, |attempts| - 1, a.seen, planner);
  }

  /** The vault the last mirror showed. */
  function SeenLast(attempts: seq<B.Attempt>): G.Vault
    requires attempts != []
  {
    Readable(attempts[|attempts| - 1].seen.entities)
  }

  lemma LandedHasView(attempts: seq<B.Attempt>, build: B.Build, key: Key, fold: string -> string, order: seq<Id>)
    requires LandedUndisturbed(attempts, build, key, fold)
    ensures attempts != [] && ViewOf(attempts[|attempts| - 1].seen, order).data == SeenLast(attempts)
    ensures PlanRepeats.NamesUnique(SeenLast(attempts), fold)
  {
  }

  /** A host of that name has a serial config that is there. */
  ghost predicate HostWithSerial(v: G.Vault, externalId: string) {
    exists o, s :: IsHostNamed(v, externalId, o) && S.NamesSerial(v, o, s) && S.IsSerial(v, s)
  }

  lemma SerialOfHost(w: View, next: Id, externalId: string, fold: string -> string)
    requires PlanSwaps.Plannable(w, next) && PlanRepeats.NamesUnique(w.data, fold)
    ensures S.HasSerial(w, externalId) <==> HostWithSerial(w.data, externalId)
  {
    var o := HostByExternalId(w, externalId);
    if HostWithSerial(w.data, externalId) {
      var x, s :| IsHostNamed(w.data, externalId, x) && S.NamesSerial(w.data, x, s) && S.IsSerial(w.data, s);
      PlanRepeats.HostNameFound(w, externalId, x);
    }
    if S.HasSerial(w, externalId) {
      assert IsHostNamed(w.data, externalId, o.value);
      assert S.NamesSerial(w.data, o.value, w.data[o.value].host.serialConfigId.value);
    }
  }

  lemma DeleteSerials(w: View, next: Id, externalId: string, fold: string -> string)
    requires PlanSwaps.Plannable(w, next) && PlanRepeats.NamesUnique(w.data, fold) && S.SerialsOwned(w.data)
    ensures S.SerialsOwned(Apply(w.data, PlanDeleteHost(w, next, externalId))) <==> !HostWithSerial(w.data, externalId)
  {
    hide *;
    S.DeleteHostKeepsSerialsExactly(w, next, externalId);
    SerialOfHost(w, next, externalId, fold);
  }

  /** A host delete that ended on an accepted push leaves no host of that name;
      it leaves a serial config without its host exactly when the host had one. */
  lemma LandedHostDelete(
    attempts: seq<B.Attempt>, build: B.Build, key: Key, fold: string -> string, externalId: string)
    requires LandedUndisturbed(attempts, build, key, fold) && Builds(build, HostDelete(externalId))
    ensures
      var after := ReadAfter(attempts[|attempts| - 1], key);
      G.WellFormed(after) && PlanRepeats.NamesUnique(after, fold) && !HasHost(after, externalId)
    ensures S.SerialsOwned(SeenLast(attempts)) ==>
      (S.SerialsOwned(ReadAfter(attempts[|attempts| - 1], key)) <==> !HostWithSerial(SeenLast(attempts), externalId))
  {
    var order, next := LastAttempt(attempts, build, key, fold, HostDelete(externalId));
    hide *;
    LandedHasView(attempts, build, key, fold, order);
    var a := attempts[|attempts| - 1];
    DeleteHostLands(a, key, order, next, externalId, fold);
    if S.SerialsOwned(SeenLast(attempts)) { DeleteSerials(ViewOf(a.seen, order), next, externalId, fold); }
  }

  /** A host upsert that ended on an accepted push leaves exactly one host of
      that name, stored as requested. */
  lemma LandedHostUpsert(
    attempts: seq<B.Attempt>, build: B.Build, key: Key, externalId: string, req: HostRequest, fold: string -> string)
    requires LandedUndisturbed(attempts, build, key, fold) && Builds(build, HostUpsert(externalId, req, fold))
    requires PlanTheorems.NoTelnetKey(req.telnet)
    ensures
      var after := ReadAfter(attempts[|attempts| - 1], key);
      && G.WellFormed(after) && PlanRepeats.NamesUnique(after, fold) && HasHost(after, externalId)
      && PlannedHosts.HostStored(SeenLast(attempts), after, externalId, req, fold)
      && (S.SerialsOwned(SeenLast(attempts)) ==> S.SerialsOwned(after))
  {
    var order, next := LastAttempt(attempts, build, key, fold, HostUpsert(externalId, req, fold));
    hide *;
    LandedHasView(attempts, build, key, fold, order);
    var a := attempts[|attempts| - 1];
    HostUpsertLands(a, key, order, next, externalId, req, fold);
    if S.SerialsOwned(SeenLast(attempts)) {
      S.HostPlanKeepsSerials(ViewOf(a.seen, order), next, externalId, req, fold);
    }
  }

  lemma LandedGroupUpsert(
    attempts: seq<B.Attempt>, build: B.Build, key: Key, externalId: string, req: GroupRequest, fold: string -> string)
    requires LandedUndisturbed(attempts, build, key, fold) && Builds(build, GroupUpsert(externalId, req))
    requires PlanTheorems.NoTelnetKey(req.telnet)
    ensures
      var after := ReadAfter(attempts[|attempts| - 1], key);
      && G.WellFormed(after) && PlanRepeats.NamesUnique(after, fold) && HasGroup(after, externalId)
      && PlannedHosts.GroupStored(SeenLast(attempts), after, externalId, req)
      && (S.SerialsOwned(SeenLast(attempts)) ==> S.SerialsOwned(after))
  {
    var order, next := LastAttempt(attempts, build, key, fold, GroupUpsert(externalId, req));
    hide *;
    LandedHasView(attempts, build, key, fold, order);
    var a := attempts[|attempts| - 1];
    GroupUpsertLands(a, key, order, next, externalId, req, fold);
    if S.SerialsOwned(SeenLast(attempts)) {
      S.GroupPlanKeepsSerials(ViewOf(a.seen, order), next, externalId, req);
    }
  }

  /** No group of that name is its own parent. */
  ghost predicate NoSelfParent(v: G.Vault, externalId: string) {
    forall id :: IsGroupNamed(v, externalId, id) ==> G.GroupRef(v[id]) != Some(id)
  }

  lemma NoOwnParent(m: Mirror, order: seq<Id>, externalId: string)
    requires NoSelfParent(Readable(m.entities), externalId)
    ensures !PlanTheorems.OwnParent(Readable(m.entities), GroupByExternalId(ViewOf(m, order), externalId))
  {
  }

  lemma LandedGroupDelete(
    attempts: seq<B.Attempt>, build: B.Build, key: Key, fold: string -> string, externalId: string)
    requires LandedUndisturbed(attempts, build, key, fold) && Builds(build, GroupDelete(externalId))
    requires NoSelfParent(Readable(attempts[|attempts| - 1].seen.entities), externalId)
    ensures
      var after := ReadAfter(attempts[|attempts| - 1], key);
      && G.WellFormed(after) && PlanRepeats.NamesUnique(after, fold) && !HasGroup(after, externalId)
      && (S.SerialsOwned(SeenLast(attempts)) ==> S.SerialsOwned(after))
  {
    var order, next := LastAttempt(attempts, build, key, fold, GroupDelete(externalId));
    hide *;
    LandedHasView(attempts, build, key, fold, order);
    var a := attempts[|attempts| - 1];
    NoOwnParent(a.seen, order, externalId);
    DeleteGroupLands(a, key, order, next, externalId, fold);
    if S.SerialsOwned(SeenLast(attempts)) { S.DeleteGroupKeepsSerials(ViewOf(a.seen, order), next, externalId); }
  }

  // ----- the last push landed, whatever it met -----

  /** The last push was accepted, on whatever the log had become; the mirror its
      plan was built from was readable and well-formed. */
  ghost predicate LandedAnywhere(attempts: seq<B.Attempt>, build: B.Build, key: Key) {
    && B.LastAccepted(attempts) && B.EachFromItsMirror(attempts, build)
    && var a := attempts[|attempts| - 1];
       && a.seen.key == Some(key) && Readable(a.seen.entities).Keys == a.seen.entities.Keys
       && G.WellFormed(Readable(a.seen.entities))
  }

  /** What the log read as when the last push met it. */
  function ReadBefore(a: B.Attempt, key: Key): G.Vault { ReadAs(a.before, key, a.seen.keyVersion) }

  lemma LastPlanned(attempts: seq<B.Attempt>, build: B.Build, key: Key, planner: Planner)
    returns (order: seq<Id>, next: Id, e: Edit)
    requires LandedAnywhere(attempts, build, key) && Builds(build, planner)
    ensures
      var a := attempts[|attempts| - 1];
      && PlanSwaps.Plannable(ViewOf(a.seen, order), next)
      && planner(ViewOf(a.seen, order), true, next) == Ok(e) && Carries(a.plan, e)
      && ViewOf(a.seen, order).data.Keys == a.seen.entities.Keys
      && B.Sound(a) && B.AllAccepted(a.outcomes) && a.seen.key == Some(key)
  {
    var a := attempts[|attempts| - 1];
    order, next := BuiltFrom(build, |attempts| - 1, a.seen, planner);
    e := planner(ViewOf(a.seen, order), true, next).value;
  }

  /** Only what an edit writes and deletes counts. */
  lemma SameEdit(now: G.Vault, e: Edit, p: Plan, externalId: string, fold: string -> string)
    requires Carries(p, e)
    ensures Apply(now, EditOf(p)) == Apply(now, e) && DropsOf(p.deletes) == e.drops
    ensures N.HostClash(now, EditOf(p), externalId) <==> N.HostClash(now, e, externalId)
    ensures N.GroupClash(now, EditOf(p), externalId) <==> N.GroupClash(now, e, externalId)
    ensures N.TagClash(now, EditOf(p), fold) <==> N.TagClash(now, e, fold)
  {
    var f := EditOf(p);
    assert f.puts == e.puts && f.drops == e.drops;
    assert forall y: Id :: N.Stays(now, f, y) <==> N.Stays(now, e, y);
    hide PutsOf, DropsOf;
  }

  /** A host upsert accepted on whatever log: if names were unique there, they
      still are exactly when nobody else's host there has the external id and
      nobody else's tag the folded label of a tag the plan creates. */
  lemma LandedHostNamesExactly(
    attempts: seq<B.Attempt>, build: B.Build, key: Key, externalId: string, req: HostRequest, fold: string -> string)
    requires LandedAnywhere(attempts, build, key) && Builds(build, HostUpsert(externalId, req, fold))
    requires PlanTheorems.NoTelnetKey(req.telnet)
    requires PlanRepeats.NamesUnique(ReadBefore(attempts[|attempts| - 1], key), fold)
    ensures
      var a := attempts[|attempts| - 1];
      var now, e := ReadBefore(a, key), EditOf(a.plan);
      && ReadAfter(a, key) == Apply(now, e)
      && (PlanRepeats.NamesUnique(ReadAfter(a, key), fold) <==>
            !N.HostClash(now, e, externalId) && !N.TagClash(now, e, fold))
  {
    var a := attempts[|attempts| - 1];
    var order, next, e := LastPlanned(attempts, build, key, HostUpsert(externalId, req, fold));
    var w := ViewOf(a.seen, order);
    assert PlanHost(w, next, externalId, req, fold) == Ok(e);
    assert ReadBefore(a, key) == ReadAs(a.before, key, a.seen.keyVersion);
    hide *;
    SameEdit(ReadBefore(a, key), e, a.plan, externalId, fold);
    N.HostDropsKnown(w, next, externalId, req, fold);
    AcceptedOnAnyLog(a, key);
    N.HostNamesExactly(w, next, externalId, req, fold, ReadBefore(a, key));
  }

  lemma LandedGroupNamesExactly(
    attempts: seq<B.Attempt>, build: B.Build, key: Key, externalId: string, req: GroupRequest, fold: string -> string)
    requires LandedAnywhere(attempts, build, key) && Builds(build, GroupUpsert(externalId, req))
    requires PlanTheorems.NoTelnetKey(req.telnet)
    requires PlanRepeats.NamesUnique(ReadBefore(attempts[|attempts| - 1], key), fold)
    ensures
      var a := attempts[|attempts| - 1];
      var now, e := ReadBefore(a, key), EditOf(a.plan);
      && ReadAfter(a, key) == Apply(now, e)
      && (PlanRepeats.NamesUnique(ReadAfter(a, key), fold) <==> !N.GroupClash(now, e, externalId))
  {
    var a := attempts[|attempts| - 1];
    var order, next, e := LastPlanned(attempts, build, key, GroupUpsert(externalId, req));
    var w := ViewOf(a.seen, order);
    assert PlanGroup(w, next, externalId, req) == Ok(e);
    assert ReadBefore(a, key) == ReadAs(a.before, key, a.seen.keyVersion);
    hide *;
    SameEdit(ReadBefore(a, key), e, a.plan, externalId, fold);
    N.GroupDropsKnown(w, next, externalId, req);
    AcceptedOnAnyLog(a, key);
    N.GroupNamesExactly(w, next, externalId, req, fold, ReadBefore(a, key));
  }

  // ----- the plan was empty -----

  lemma NothingCarried(p: Plan, e: Edit)
    requires Carries(p, e)
    ensures p.IsEmpty() <==> e.puts == map[] && e.drops == {}
  {
    if p.deletes != [] { assert p.deletes[0] in e.drops; }
    if p.changes != [] { assert p.changes[|p.changes| - 1].0 in e.puts; }
    assert PutsOf([]) == map[] && DropsOf([]) == {};
  }

  /** A host delete has nothing to do exactly when the mirror shows no such host. */
  lemma EmptyHostDeleteExactly(build: B.Build, k: nat, m: Mirror, externalId: string)
    requires Builds(build, HostDelete(externalId))
    ensures build(k, m).Ok?
    ensures build(k, m).value.IsEmpty() <==> !HasHost(Readable(m.entities), externalId)
  {
    var order, next := BuiltFrom(build, k, m, HostDelete(externalId));
    var w := ViewOf(m, order);
    var e := PlanDeleteHost(w, next, externalId);
    NothingCarried(build(k, m).value, e);
    match HostByExternalId(w, externalId)
    case Some(id) => assert id in e.drops && IsHostNamed(w.data, externalId, id);
    case None => assert forall id: Id :: id in w.order ==> !IsHostNamed(w.data, externalId, id);
  }

  /** When a host delete answers "done" on an empty plan although the host is
      still in the log that was last pulled: exactly when a refresh after that
      pull changed the key, and so emptied the mirror the plan was built on. */
  lemma FalseHostDeleteExactly(build: B.Build, k: nat, m: Mirror, sight: B.Sight, key: Key, externalId: string)
    requires Builds(build, HostDelete(externalId))
    requires sight.Whole() && B.Follows(m, sight) && m.key == Some(key)
    ensures build(k, m).Ok?
    ensures
      var stillThere := HasHost(ReadAs(sight.log, key, m.keyVersion), externalId);
      build(k, m).value.IsEmpty() && stillThere <==> m != sight.mirror && stillThere
  {
    EmptyHostDeleteExactly(build, k, m, externalId);
    if m != sight.mirror { assert Readable(m.entities) == map[]; }
  }

  /** In particular an unchanged key makes the answer true. */
  lemma HonestHostDelete(
    held: map<VaultId, Mirror>, logs: map<VaultId, Log>, vid: VaultId, attempts: seq<B.Attempt>,
    build: B.Build, sight: B.Sight, key: Key, externalId: string)
    requires B.NothingAsked(held, logs, vid, attempts, build, sight) && Builds(build, HostDelete(externalId))
    requires sight.Whole() && held[vid].key == Some(key) && held[vid] == sight.mirror
    ensures !HasHost(ReadAs(sight.log, key, held[vid].keyVersion), externalId)
  {
    FalseHostDeleteExactly(build, |attempts|, held[vid], sight, key, externalId);
  }

  // ----- a rotation between two attempts -----

  function Found(externalId: string): Host { NewHost().(externalId := Some(externalId)) }

  /** The host, as row 1 sealed under `a`, then sealed again under `b`. */
  function FirstRow(a: Key, externalId: string): Log {
    Append([], Write(1, "host", false, 1, Sealed(a, "host", 1, HostP(Found(externalId)))))
  }

  function Rotated(a: Key, b: Key, externalId: string): Log {
    Append(FirstRow(a, externalId), Write(1, "host", false, 2, Sealed(b, "host", 1, HostP(Found(externalId)))))
  }

  lemma RotatedReads(a: Key, b: Key, externalId: string)
    ensures
      var log := Rotated(a, b, externalId);
      && |log| == 2 && Current(log, 1) == Some(log[1]) && log[1].version == 2 && !log[1].deleted
      && ReadAs(log, b, 2) == map[1 := HostP(Found(externalId))]
  {
    var first, log := FirstRow(a, externalId), Rotated(a, b, externalId);
    var h := HostP(Found(externalId));
    assert log[..1] == first && first[..0] == [];
    ReplayAppend(first, Write(1, "host", false, 2, Sealed(b, "host", 1, h)), b, 2);
    ReplayAppend([], Write(1, "host", false, 1, Sealed(a, "host", 1, h)), b, 2);
    assert Replay([], Some(b), 2) == map[];
    assert Replay(log, Some(b), 2) == map[1 := VaultMirror.View(log[1], Some(b), 2)];
  }

  /** The line of the list, first under `a`, then under `b`. */
  function LineOf(keyPair: nat, keyVersion: int, key: Key): BridgeVault {
    BridgeVault(1, "vault", true, keyVersion, Some(SealedTo(keyPair, key)))
  }

  function HostWritten(keyVersion: int, key: Key, externalId: string): Event {
    Wrote(1, Write(1, "host", false, keyVersion, Sealed(key, "host", 1, HostP(Found(externalId)))))
  }

  /** Somebody writes the host and shares the vault with us. */
  function Shares(keyPair: nat, a: Key, externalId: string): seq<Event> {
    [HostWritten(1, a, externalId), Relisted([LineOf(keyPair, 1, a)]), Gated(1, Gate(1, {})), Scoped({1})]
  }

  /** Somebody rotates the vault's key: the host is sealed again under the new one. */
  function Rotates(keyPair: nat, b: Key, externalId: string): seq<Event> {
    [HostWritten(2, b, externalId), Relisted([LineOf(keyPair, 2, b)]), Gated(1, Gate(2, {}))]
  }

  function Shared(keyPair: nat, a: Key, externalId: string): World {
    World(map[1 := FirstRow(a, externalId)], map[1 := Gate(1, {})], {1}, [LineOf(keyPair, 1, a)])
  }

  function AfterRotation(keyPair: nat, a: Key, b: Key, externalId: string): World {
    World(map[1 := Rotated(a, b, externalId)], map[1 := Gate(2, {})], {1}, [LineOf(keyPair, 2, b)])
  }

  lemma SharesIs(keyPair: nat, a: Key, externalId: string)
    ensures HappenedAll(World(map[], map[], {}, []), Shares(keyPair, a, externalId)) == Shared(keyPair, a, externalId)
  {
    var w, s := World(map[], map[], {}, []), Shares(keyPair, a, externalId);
    assert s[..3][..2] == s[..2] && s[..3][..2][..1] == s[..1] && s[..2][..1] == s[..1] && s[..1][..0] == [];
    hide Append;
    assert HappenedAll(w, s[..1]) == Happened(w, s[0]);
    assert HappenedAll(w, s[..2]) == Happened(HappenedAll(w, s[..1]), s[1]);
    assert HappenedAll(w, s[..3]) == Happened(HappenedAll(w, s[..2]), s[2]);
    assert LogIn(map[], 1) == [];
  }

  lemma RotatesIs(keyPair: nat, a: Key, b: Key, externalId: string)
    ensures HappenedAll(Shared(keyPair, a, externalId), Rotates(keyPair, b, externalId)) ==
              AfterRotation(keyPair, a, b, externalId)
  {
    var w, s := Shared(keyPair, a, externalId), Rotates(keyPair, b, externalId);
    assert s[..2][..1] == s[..1] && s[..1][..0] == [];
    hide Append;
    assert HappenedAll(w, s[..1]) == Happened(w, s[0]);
    assert HappenedAll(w, s[..2]) == Happened(HappenedAll(w, s[..1]), s[1]);
  }

  lemma OneLine(held: map<VaultId, Mirror>, line: BridgeVault, keyPair: nat)
    ensures
      var after := B.Relist(B.Listed(held, [line]), [line], keyPair);
      && line.id in after
      && after[line.id] == B.Rekeyed(if line.id in held then held[line.id] else B.NewMirror(line), line.keyVersion,
        B.OpenSealed(keyPair, line.sealedKey))
    ensures forall was :: B.RoleTold([line], line.id, was) == Some(line.writable)
  {
    assert [line][0].id == line.id;
    assert B.IsListed(line.id, [line]);
    assert [line][..0] == [];
    hide B.OpenSealed, B.Rekeyed;
  }

  /** Deletes based on an outdated version all clash and change nothing. */
  lemma {:induction false} StaleDropsClash(log: Log, gate: Gate, items: seq<Item>, base: nat)
    requires gate.refused == {} && Current(log, 1).Some? && !Current(log, 1).value.deleted
    requires Current(log, 1).value.version != base && forall x :: x in items ==> x == Drop(1, base)
    ensures PushItems(log, gate, items).0 == log
    ensures forall o :: o in PushItems(log, gate, items).1 ==> o == Conflict
  {
    hide Current, Append;
    if items != [] {
      var init := items[..|items| - 1];
      assert items[|items| - 1] in items;
      forall x | x in init ensures x == Drop(1, base) { assert x in items; }
      StaleDropsClash(log, gate, init, base);
    }
  }

  /** What the delete of the host comes to on the mirror that shows only it. */
  lemma DeletePlanned(build: B.Build, k: nat, m: Mirror, key: Key, externalId: string)
    requires Builds(build, HostDelete(externalId)) && m.key == Some(key)
    requires m.entities == map[1 := Entity("host", 1, Some(HostP(Found(externalId))))]
    ensures build(k, m).Ok? && !build(k, m).value.IsEmpty()
    ensures B.SealedItems(m, build(k, m).value).Ok?
    ensures
      var items := B.SealedItems(m, build(k, m).value).value;
      items != [] && forall x :: x in items ==> x == Drop(1, 1)
  {
    var order, next := BuiltFrom(build, k, m, HostDelete(externalId));
    var w := ViewOf(m, order);
    var h := HostP(Found(externalId));
    assert Readable(m.entities) == map[1 := h];
    var plan := build(k, m).value;
    OnlyHostDeleted(w, next, externalId);
    var e := PlanDeleteHost(w, next, externalId);
    NothingPut(plan);
    hide PlanDeleteHost, PutsOf;
    OnlyOneDeleted(plan.deletes);
    DropsOfOne(m, plan.deletes);
  }

  lemma OnlyHostDeleted(w: View, next: Id, externalId: string)
    requires w.Valid() && w.data == map[1 := HostP(Found(externalId))]
    ensures PlanDeleteHost(w, next, externalId) == Edit(map[], {1}, next)
  {
    assert 1 in w.order && IsHostNamed(w.data, externalId, 1);
  }

  lemma NothingPut(p: Plan)
    ensures PutsOf(p.changes) == map[] ==> p.changes == []
  {
    if p.changes != [] { assert p.changes[|p.changes| - 1].0 in PutsOf(p.changes); }
  }

  lemma OnlyOneDeleted(deletes: seq<Id>)
    requires DropsOf(deletes) == {1}
    ensures deletes != [] && forall id :: id in deletes ==> id == 1
  {
    assert 1 in DropsOf(deletes);
    forall id | id in deletes ensures id == 1 { assert id in DropsOf(deletes); }
  }

  lemma {:induction false} DropsOfOne(m: Mirror, deletes: seq<Id>)
    requires m.VersionOf(1) == Some(1) && forall id :: id in deletes ==> id == 1
    ensures |B.DropItems(m, deletes)| == |deletes| && forall x :: x in B.DropItems(m, deletes) ==> x == Drop(1, 1)
  {
    if deletes != [] {
      var init := deletes[..|deletes| - 1];
      assert deletes[|deletes| - 1] in deletes;
      forall id | id in init ensures id == 1 { assert id in deletes; }
      DropsOfOne(m, init);
    }
  }

  lemma FirstReads(a: Key, externalId: string)
    ensures Replay(FirstRow(a, externalId), Some(a), 1) ==
              map[1 := Entity("host", 1, Some(HostP(Found(externalId))))]
  {
    var h := HostP(Found(externalId));
    ReplayAppend([], Write(1, "host", false, 1, Sealed(a, "host", 1, h)), a, 1);
    assert Replay([], Some(a), 1) == map[];
  }

  /** The first pass, after the rotation: its plan is sent and clashes. */
  lemma FirstPassClashes(
    held: map<VaultId, Mirror>, a: Key, b: Key, keyPair: nat, externalId: string, build: B.Build)
    requires Builds(build, HostDelete(externalId)) && 1 in held && held[1].key == Some(a)
    requires held[1].entities == Replay(FirstRow(a, externalId), Some(a), 1)
    ensures
      var p := B.Prepared(held, Some(true), 1, 0, build);
      var met := AfterRotation(keyPair, a, b, externalId);
      && p.Ok? && p.value.Some?
      && var items := p.value.value.1;
         var (log, outcomes) := PushItems(LogIn(met.logs, 1), met.GateOf(1), items);
         B.VerdictOf(outcomes) == B.Clashed && B.Pushed(met, 1, items) == met
  {
    var m, met := held[1], AfterRotation(keyPair, a, b, externalId);
    FirstReads(a, externalId);
    DeletePlanned(build, 0, m, a, externalId);
    RotatedReads(a, b, externalId);
    var items := B.SealedItems(m, build(0, m).value).value;
    hide Rotated, B.SealedItems, Builds, Replay, Append;
    StaleDropsClash(Rotated(a, b, externalId), met.GateOf(1), items, 1);
    OutcomesOf(Rotated(a, b, externalId), met.GateOf(1), items);
    hide PushItems, Current;
    assert met.logs[1 := Rotated(a, b, externalId)] == met.logs;
  }

  lemma OutcomesOf(log: Log, gate: Gate, items: seq<Item>)
    requires items != [] && forall o :: o in PushItems(log, gate, items).1 ==> o == Conflict
    ensures B.VerdictOf(PushItems(log, gate, items).1) == B.Clashed
  {
    var outcomes := PushItems(log, gate, items).1;
    assert outcomes[0] in outcomes;
  }

  lemma FreshMirror(line: BridgeVault, keyPair: nat, key: Key)
    requires line.sealedKey == Some(SealedTo(keyPair, key))
    ensures B.Rekeyed(B.NewMirror(line), line.keyVersion, B.OpenSealed(keyPair, line.sealedKey)) ==
              Mirror(line.keyVersion, Some(key), 0, map[])
  {
  }

  lemma RekeyedMirror(m: Mirror, line: BridgeVault, keyPair: nat, key: Key)
    requires line.sealedKey == Some(SealedTo(keyPair, key)) && m.keyVersion != line.keyVersion
    ensures B.Rekeyed(m, line.keyVersion, B.OpenSealed(keyPair, line.sealedKey)) ==
              Mirror(line.keyVersion, Some(key), 0, map[])
  {
  }

  lemma MetOne(w: World, batch: seq<Event>)
    ensures B.Met(w, [batch]) == HappenedAll(w, batch) && LaterBatches([batch]) == []
    ensures B.Met(w, []) == w && LaterBatches([]) == []
  {
  }

  lemma MovedOne(was: map<VaultId, Mirror>, held: map<VaultId, Mirror>, logs: Logs, served: set<VaultId>)
    requires B.Moved(was, held) && B.AtHead(held, served, logs) && 1 in was && 1 in served && was[1].key.Some?
    ensures 1 in held && held[1].key == was[1].key && held[1].keyVersion == was[1].keyVersion
    ensures held[1].entities == Replay(LogIn(logs, 1), held[1].key, held[1].keyVersion)
  {
  }

  /** The host is there, the vault was shared with us and pulled. */
  method PulledHost(a: Key, keyPair: nat, externalId: string) returns (bridge: B.Bridge)
    ensures fresh(bridge) && fresh(bridge.server) && fresh(bridge.vaults.Values) && bridge.Valid()
    ensures bridge.keyPair == keyPair
    ensures bridge.server.Now() == Shared(keyPair, a, externalId) && bridge.server.script == []
    ensures 1 in bridge.held && bridge.held[1].key == Some(a) && bridge.held[1].keyVersion == 1
    ensures bridge.held[1].entities == Replay(FirstRow(a, externalId), Some(a), 1)
    ensures B.RoleIn(bridge.roles, 1) == Some(true)
  {
    hide *;
    var server := new Server([Shares(keyPair, a, externalId)]);
    bridge := new B.Bridge(server, keyPair);
    var line := LineOf(keyPair, 1, a);
    SharesIs(keyPair, a, externalId);
    SharedParts(keyPair, a, externalId);
    MetOne(server.Now(), Shares(keyPair, a, externalId));
    OneLine(bridge.held, line, keyPair);
    FreshMirror(line, keyPair, a);
    ghost var list := bridge.RefreshMe();
    ghost var listed := bridge.held;
    bridge.PullAll();
    MovedOne(listed, bridge.held, server.logs, server.served);
  }

  lemma SharedParts(keyPair: nat, a: Key, externalId: string)
    ensures
      var w, line := Shared(keyPair, a, externalId), LineOf(keyPair, 1, a);
      && w.served == {1} && w.listing == [line] && LogIn(w.logs, 1) == FirstRow(a, externalId)
      && line.id == 1 && line.writable && line.keyVersion == 1 && line.sealedKey == Some(SealedTo(keyPair, a))
  {
  }

  lemma RotatedParts(keyPair: nat, a: Key, b: Key, externalId: string)
    ensures
      var w, line := AfterRotation(keyPair, a, b, externalId), LineOf(keyPair, 2, b);
      && w.served == {1} && w.listing == [line] && LogIn(w.logs, 1) == Rotated(a, b, externalId)
      && line.id == 1 && line.writable && line.keyVersion == 2 && line.sealedKey == Some(SealedTo(keyPair, b))
  {
  }

  lemma FirstPassEnds(
    held: map<VaultId, Mirror>, a: Key, b: Key, keyPair: nat, externalId: string, build: B.Build,
    r: Result<bool, B.BridgeError>, attempts: seq<B.Attempt>)
    requires Builds(build, HostDelete(externalId)) && 1 in held && held[1].key == Some(a)
    requires held[1].entities == Replay(FirstRow(a, externalId), Some(a), 1)
    requires B.OncePrepared(B.Prepared(held, Some(true), 1, 0, build), r, attempts)
    requires B.EachFromItsMirror(attempts, build)
    requires attempts != [] ==> B.PushMet(attempts[|attempts| - 1], AfterRotation(keyPair, a, b, externalId), 1)
    ensures r == Ok(false)
  {
    FirstPassClashes(held, a, b, keyPair, externalId, build);
    hide Builds, AfterRotation, B.Prepared, B.Pushed, PushItems;
    if attempts != [] { LastIsSound(attempts, build); }
  }

  lemma LastIsSound(attempts: seq<B.Attempt>, build: B.Build)
    requires attempts != [] && B.EachFromItsMirror(attempts, build)
    ensures var a := attempts[|attempts| - 1]; a.outcomes == PushItems(a.before, a.gate, a.items).1
  {
    assert B.Sound(attempts[|attempts| - 1]);
  }

  lemma SecondPassEnds(
    held: map<VaultId, Mirror>, key: Key, externalId: string, build: B.Build, r: Result<bool, B.BridgeError>,
    attempts: seq<B.Attempt>)
    requires Builds(build, HostDelete(externalId)) && 1 in held && held[1] == Mirror(2, Some(key), 0, map[])
    ensures B.Prepared(held, Some(true), 1, 1, build) == Ok(None)
    ensures B.OncePrepared(B.Prepared(held, Some(true), 1, 1, build), r, attempts) ==> r == Ok(true)
  {
    EmptyHostDeleteExactly(build, 1, held[1], externalId);
    assert Readable(held[1].entities) == map[];
    hide Builds, HasHost;
    NobodyNamed(externalId);
  }

  lemma NobodyNamed(externalId: string)
    ensures !HasHost(map[], externalId)
  {
  }

  /** The pass after the refresh finds nothing to do. */
  method SecondPass(bridge: B.Bridge, key: Key, externalId: string, build: B.Build, ghost attempts: seq<B.Attempt>)
    returns (r: Result<bool, B.BridgeError>, ghost more: seq<B.Attempt>)
    requires bridge.Valid() && Builds(build, HostDelete(externalId)) && B.RoleIn(bridge.roles, 1) == Some(true)
    requires 1 in bridge.held && bridge.held[1] == Mirror(2, Some(key), 0, map[])
    requires |attempts| == 1 && B.EachFromItsMirror(attempts, build) && B.ClashedUntil(attempts, 1)
    modifies bridge`held, bridge.server, bridge.vaults.Values`cursor, bridge.vaults.Values`entities
    ensures r == Ok(true) && bridge.Valid() && bridge.server.logs == old(bridge.server.logs)
  {
    hide *;
    ghost var held := bridge.held;
    r, more := bridge.TryOnce(1, 1, build, attempts);
    SecondPassEnds(held, key, externalId, build, r, more);
  }

  /** A run of the bridge that reports a delete that never happened. The host is
      pulled; the key is rotated before the delete is pushed, so it clashes; the
      pull and the refresh after it empty the mirror; the next plan is empty and
      the second pass says it is done. The host is still in the log under the
      new key. These are the calls `Edit` makes, one after the other. */
  method LostDelete(a: Key, b: Key, keyPair: nat, externalId: string, build: B.Build)
    returns (bridge: B.Bridge, first: Result<bool, B.BridgeError>, second: Result<bool, B.BridgeError>)
    requires a != b && Builds(build, HostDelete(externalId))
    ensures fresh(bridge) && bridge.Valid() && first == Ok(false) && second == Ok(true)
    ensures LogIn(bridge.server.logs, 1) == Rotated(a, b, externalId)
    ensures HasHost(ReadAs(LogIn(bridge.server.logs, 1), b, 2), externalId)
  {
    hide *;
    bridge := PulledHost(a, keyPair, externalId);
    var server, line := bridge.server, LineOf(keyPair, 2, b);
    ghost var pulled := bridge.held;
    server.script := [Rotates(keyPair, b, externalId)];
    RotatesIs(keyPair, a, b, externalId);
    RotatedParts(keyPair, a, b, externalId);
    MetOne(server.Now(), Rotates(keyPair, b, externalId));
    FirstPassClashes(pulled, a, b, keyPair, externalId, build);
    B.NoAttempts(build);
    ghost var attempts;
    first, attempts := bridge.TryOnce(1, 0, build, []);
    FirstPassEnds(pulled, a, b, keyPair, externalId, build, first, attempts);
    MetOne(server.Now(), []);
    OneLine(bridge.held, line, keyPair);
    KeepsVersion(pulled, bridge.held);
    RekeyedMirror(bridge.held[1], line, keyPair, b);
    ghost var sight := bridge.RefreshAfterConflict(1);
    ghost var more;
    second, more := SecondPass(bridge, b, externalId, build, attempts);
    RotatedIsThere(a, b, externalId);
  }

  lemma KeepsVersion(was: map<VaultId, Mirror>, held: map<VaultId, Mirror>)
    requires B.Moved(was, held) && 1 in was
    ensures 1 in held && held[1].keyVersion == was[1].keyVersion
  {
  }

  lemma RotatedIsThere(a: Key, b: Key, externalId: string)
    ensures HasHost(ReadAs(Rotated(a, b, externalId), b, 2), externalId)
  {
    RotatedReads(a, b, externalId);
    hide Rotated;
    assert IsHostNamed(ReadAs(Rotated(a, b, externalId), b, 2), externalId, 1);
  }

  /** An edit that only creates: new ids from `lo` on, nothing dropped. */
  ghost predicate OnlyNew(e: Edit, lo: Id) {
    e.drops == {} && lo <= e.next && forall x :: x in e.puts ==> lo <= x < e.next
  }

  lemma SectionsOnEmpty(w: View, next: Id, wanted: bool, section: Option<Section>, name: string)
    requires w.data == map[]
    ensures OnlyNew(PlanSshSlot(w, next, None, wanted, section, name).0, next)
    ensures OnlyNew(PlanTelnetSlot(w, next, None, section, name).0, next)
  {
  }

  lemma {:induction false} TagsOnEmpty(w: View, next: Id, fold: string -> string, tags: seq<string>)
    requires w.data == map[] && w.order == []
    ensures OnlyNew(PlanTags(w, next, fold, tags).0, next)
  {
    if tags != [] { TagsOnEmpty(w, next, fold, tags[..|tags| - 1]); }
  }

  lemma NothingFound(w: View, next: Id, externalId: string, req: HostRequest)
    requires w.data == map[] && w.order == [] && Trimmed(req.group).None?
    ensures HostByExternalId(w, externalId) == None && HostNow(w, next) == NewHost()
    ensures NamedGroup(w, req.group) == Ok(None)
  {
  }

  /** On an empty view an upsert creates its host, with nothing to look up. */
  lemma UpsertShape(w: View, next: Id, externalId: string, req: HostRequest, fold: string -> string)
    returns (ssh: Edit, telnet: Edit, tags: Edit, owner: Payload)
    requires w.data == map[] && w.order == [] && Trimmed(req.group).None?
    ensures PlanHost(w, next, externalId, req, fold) == Ok(ssh.Then(telnet).Then(tags).Put(next, owner))
    ensures owner.HostP? && owner.host.externalId == Some(externalId)
    ensures OnlyNew(ssh, next + 1) && OnlyNew(telnet, ssh.next) && OnlyNew(tags, telnet.next)
    ensures tags == PlanTags(w, telnet.next, fold, req.tags).0
  {
    hide PlanSshSlot, PlanTelnetSlot, PlanTags, HostName, OnlyNew, Edit.Then, Edit.Put, Trimmed,
         HostByExternalId, HostNow, NamedGroup;
    var wanted := req.ssh.Some? || req.telnet.None?;
    NothingFound(w, next, externalId, req);
    SectionsOnEmpty(w, next + 1, wanted, req.ssh, HostName(req));
    var (ssh0, sshId) := PlanSshSlot(w, next + 1, None, wanted, req.ssh, HostName(req));
    SectionsOnEmpty(w, ssh0.next, wanted, req.telnet, HostName(req));
    var (telnet0, telnetId) := PlanTelnetSlot(w, ssh0.next, None, req.telnet, HostName(req));
    TagsOnEmpty(w, telnet0.next, fold, req.tags);
    var (tags0, tagIds, _) := PlanTags(w, telnet0.next, fold, req.tags);
    ssh, telnet, tags := ssh0, telnet0, tags0;
    owner := HostP(HostAs(NewHost(), externalId, req, None, sshId, telnetId, tagIds));
  }

  lemma OnlyNewTogether(ssh: Edit, telnet: Edit, tags: Edit, next: Id, owner: Payload)
    requires OnlyNew(ssh, next + 1) && OnlyNew(telnet, ssh.next) && OnlyNew(tags, telnet.next)
    ensures
      var e := ssh.Then(telnet).Then(tags).Put(next, owner);
      e.drops == {} && (forall x :: x in e.puts ==> next <= x) && next in e.puts && e.puts[next] == owner
  {
  }

  lemma UpsertOnEmpty(w: View, next: Id, externalId: string, req: HostRequest, fold: string -> string)
    requires w.data == map[] && w.order == [] && Trimmed(req.group).None?
    ensures
      var e := PlanHost(w, next, externalId, req, fold);
      && e.Ok? && e.value.drops == {} && (forall x :: x in e.value.puts ==> next <= x) && next in e.value.puts
      && e.value.puts[next].HostP? && e.value.puts[next].host.externalId == Some(externalId)
  {
    hide *;
    var ssh, telnet, tags, owner := UpsertShape(w, next, externalId, req, fold);
    OnlyNewTogether(ssh, telnet, tags, next, owner);
  }

  lemma FirstIsIn(order: seq<Id>)
    requires order != []
    ensures order[0] in order
  {
  }

  lemma EmptyView(m: Mirror, order: seq<Id>)
    requires B.StartedOver(m) && ViewOf(m, order).Valid()
    ensures ViewOf(m, order).data == map[] && order == []
  {
    assert Readable(m.entities) == map[];
    if order != [] { FirstIsIn(order); }
  }

  /** The same emptied mirror makes an upsert create the host a second time:
      the log then reads as a vault with two hosts of one name. */
  lemma RekeyedUpsertDuplicates(
    now: G.Vault, o: Id, m: Mirror, order: seq<Id>, next: Id,
    externalId: string, req: HostRequest, fold: string -> string)
    requires B.StartedOver(m) && ViewOf(m, order).Valid()
    requires IsHostNamed(now, externalId, o) && (forall id :: id in now ==> id < next)
    requires Trimmed(req.group).None?
    ensures PlanHost(ViewOf(m, order), next, externalId, req, fold).Ok?
    ensures
      var after := Apply(now, PlanHost(ViewOf(m, order), next, externalId, req, fold).value);
      && IsHostNamed(after, externalId, o) && IsHostNamed(after, externalId, next)
      && !PlanRepeats.HostNamesUnique(after)
  {
    var w := ViewOf(m, order);
    EmptyView(m, order);
    UpsertOnEmpty(w, next, externalId, req, fold);
    hide PlanHost;
  }

  lemma OneLabel(w: View, next: Id, fold: string -> string, name: string)
    requires w.data == map[] && w.order == [] && Trim(name) == name && name != ""
    ensures PlanTags(w, next, fold, [name]).0 == Edit(map[next := TagP(Tag(name, None))], {}, next + 1)
  {
    assert [name][..0] == [];
    assert PlanTags(w, next, fold, []) == (Start(next), [], {});
  }

  lemma TagIsPut(ssh: Edit, telnet: Edit, tags: Edit, next: Id, owner: Payload, t: Id)
    requires OnlyNew(ssh, next + 1) && OnlyNew(telnet, ssh.next) && t in tags.puts && next < t
    ensures
      var e := ssh.Then(telnet).Then(tags).Put(next, owner);
      t in e.puts && e.puts[t] == tags.puts[t]
  {
  }

  /** And it makes it create a tag a second time, of a host nobody has yet. */
  lemma RekeyedUpsertDuplicatesTag(
    now: G.Vault, o: Id, m: Mirror, order: seq<Id>, next: Id,
    externalId: string, req: HostRequest, fold: string -> string, name: string)
    requires B.StartedOver(m) && ViewOf(m, order).Valid() && Trimmed(req.group).None?
    requires req.tags == [name] && Trim(name) == name && name != ""
    requires (forall id :: id in now ==> id < next) && o in now && now[o] == TagP(Tag(name, None))
    ensures PlanHost(ViewOf(m, order), next, externalId, req, fold).Ok?
    ensures
      var after := Apply(now, PlanHost(ViewOf(m, order), next, externalId, req, fold).value);
      !PlanRepeats.TagNamesUnique(after, fold)
  {
    var w := ViewOf(m, order);
    EmptyView(m, order);
    UpsertOnEmpty(w, next, externalId, req, fold);
    var ssh, telnet, tags, owner := UpsertShape(w, next, externalId, req, fold);
    OneLabel(w, telnet.next, fold, name);
    var t := telnet.next;
    assert next < t;
    var e := PlanHost(w, next, externalId, req, fold).value;
    TagIsPut(ssh, telnet, tags, next, owner, t);
    hide PlanHost, PlanTags, Trim, OnlyNew;
    var after := Apply(now, e);
    assert t in after && o in after && after[t] == after[o] && t != o;
  }
}
