/** Ownership over whole runs of host and group edits. */
module HostRuns {
  import opened Wrappers
  import opened Schema
  import opened VaultGraph
  import opened PlanAssembly
  import opened HostForms
  import opened HostTheorems
  import opened HostSaves
  import opened GroupTrees
  import PlanSwaps

  datatype Op =
    | SaveHostOp(form: HostForm)
    | DeleteHostOp(id: Id)
    | DuplicateOp(id: Id, tokenMode: bool, sectionOk: bool)
    | CopyHostOp(id: Id, title: Option<string>, groupId: Option<Id>, tokenMode: bool, sectionOk: bool)
    | SaveGroupOp(gid: Option<Id>, name: string, parent: Option<Id>)
    | SaveGroupFormOp(groupForm: GroupForm)
    | DeleteGroupOp(id: Id)

  datatype State = State(rows: Vault, next: Id)

  function Perform(s: State, op: Op, certKey: CertKeys, bound: Payload -> Option<Id>): Result<State, FormError> {
    match op
    case SaveHostOp(f) => (match SaveHost(s.rows, s.next, f, certKey) case Ok(r) => Ok(State(r.0, r.2))
      case Err(e) => Err(e))
    case DeleteHostOp(id) => Ok(State(DeleteHost(s.rows, id, bound), s.next))
    case DuplicateOp(id, token, ok) =>
      (match DuplicateHost(s.rows, s.next, id, token, ok, certKey) case Ok(r) => Ok(State(r.0, r.2))
        case Err(e) => Err(e))
    case CopyHostOp(id, name, group, token, ok) =>
      (match CopyHost(s.rows, s.next, id, name, group, token, ok, certKey)
       case Ok(r) => Ok(State(r.0, r.2))
       case Err(e) => Err(e))
    case SaveGroupOp(id, name, parent) =>
      (match SaveGroup(s.rows, s.next, id, name, parent) case Ok(r) => Ok(State(r.0, r.2)) case Err(e) => Err(e))
    case SaveGroupFormOp(f) =>
      (match SaveGroupForm(s.rows, s.next, f, certKey) case Ok(r) => Ok(State(r.0, r.2)) case Err(e) => Err(e))
    case DeleteGroupOp(id) => Ok(State(DeleteGroup(s.rows, id), s.next))
  }

  /** What an operation needs that the program does not check: a form's tags
      exist, and a deleted group is not its own parent with somebody in it. */
  predicate Fits(v: Vault, op: Op) {
    match op
    case SaveHostOp(f) => forall t :: t in f.tagIds ==> Points(v, Some(t), TagS)
    case DeleteGroupOp(id) => id in v && v[id].GroupP? ==> !OwnParentWithMembers(v, id)
    case _ => true
  }

  ghost predicate Good(s: State) { WellFormed(s.rows) && IdsBelow(s.rows, s.next) && GroupsPlain(s.rows) }

  lemma SaveKeepsPlain(v: Vault, o: Id, owner: Payload, s: seq<PlanSwaps.Swap>)
    requires ClientSave(v, o, owner, s) && |s| == SLOTS && GroupsPlain(v) &&
        (owner.GroupP? ==> owner.group.telnetConfigId.None?)
    ensures GroupsPlain(Saved(v, o, owner, s))
  {
    forall x | x in Saved(v, o, owner, s) && x != o && Saved(v, o, owner, s)[x].GroupP?
      ensures x in v && v[x].GroupP? && Saved(v, o, owner, s)[x] == v[x]
    {
      GroupUntouched(v, o, owner, s, x);
    }
    assert Saved(v, o, owner, s)[o] == owner;
  }

  lemma SaveHostKeepsPlain(v: Vault, next: Id, f: HostForm, certKey: CertKeys)
    requires WellFormed(v) && IdsBelow(v, next) && GroupsPlain(v) && SaveHost(v, next, f, certKey).Ok?
    ensures GroupsPlain(SaveHost(v, next, f, certKey).value.0)
  {
    var b, owner, s := SaveTakenApart(v, next, f, certKey);
    assert GroupsPlain(b);
    hide SaveHost, WithoutSerial, ClientSave, WellFormed, Saved;
    SaveKeepsPlain(b, SaveHost(v, next, f, certKey).value.1, owner, s);
  }

  lemma SaveHostIsGood(s: State, f: HostForm, certKey: CertKeys)
    requires Good(s) && SaveHost(s.rows, s.next, f, certKey).Ok? && Fits(s.rows, SaveHostOp(f))
    ensures var r := SaveHost(s.rows, s.next, f, certKey).value; Good(State(r.0, r.2))
  {
    hide SaveHost, WellFormed;
    SaveHostKeepsWellFormedExactly(s.rows, s.next, f, certKey);
    SaveHostKeepsIds(s.rows, s.next, f, certKey);
    SaveHostKeepsPlain(s.rows, s.next, f, certKey);
  }

  lemma CopyHostIsGood(
    s: State, id: Id, name: Option<string>, group: Option<Id>, token: bool, ok: bool, certKey: CertKeys)
    requires Good(s) && CopyHost(s.rows, s.next, id, name, group, token, ok, certKey).Ok?
    ensures var r := CopyHost(s.rows, s.next, id, name, group, token, ok, certKey).value; Good(State(r.0, r.2))
  {
    var title := if name.Some? then name.value else s.rows[id].host.name;
    hide SaveHost, WellFormed, CopyForm;
    CopyHostKeepsWellFormed(s.rows, s.next, id, name, group, token, ok, certKey);
    SaveHostKeepsPlain(s.rows, s.next, CopyForm(s.rows, id, title, group, token, ok), certKey);
  }

  lemma DuplicateIsGood(s: State, id: Id, token: bool, ok: bool, certKey: CertKeys)
    requires Good(s) && DuplicateHost(s.rows, s.next, id, token, ok, certKey).Ok?
    ensures var r := DuplicateHost(s.rows, s.next, id, token, ok, certKey).value; Good(State(r.0, r.2))
  {
    hide CopyHost, Good;
    CopyHostIsGood(s, id, Some(s.rows[id].host.name + " copy"), s.rows[id].host.groupId, token, ok, certKey);
  }

  lemma DeleteHostIsGood(s: State, id: Id, bound: Payload -> Option<Id>)
    requires Good(s)
    ensures Good(State(DeleteHost(s.rows, id, bound), s.next))
  {
    hide WellFormed;
    DeleteHostKeepsWellFormed(s.rows, s.next, id, bound);
    DeleteHostTouches(s.rows, id, bound);
  }

  lemma SaveGroupIsGood(s: State, id: Option<Id>, name: string, parent: Option<Id>)
    requires Good(s) && SaveGroup(s.rows, s.next, id, name, parent).Ok?
    ensures var r := SaveGroup(s.rows, s.next, id, name, parent).value; Good(State(r.0, r.2))
  {
    SaveGroupKeepsWellFormed(s.rows, s.next, id, name, parent);
    hide WellFormed, CheckParent;
  }

  lemma SaveGroupFormIsGood(s: State, f: GroupForm, certKey: CertKeys)
    requires Good(s) && SaveGroupForm(s.rows, s.next, f, certKey).Ok?
    ensures var r := SaveGroupForm(s.rows, s.next, f, certKey).value; Good(State(r.0, r.2))
  {
    var owner, slots := SaveGroupFormTakenApart(s.rows, s.next, f, certKey);
    SaveGroupFormKeepsWellFormed(s.rows, s.next, f, certKey);
    GroupFormShape(s.rows, s.next, f, certKey);
    var r := SaveGroupForm(s.rows, s.next, f, certKey).value;
    SavedIds(s.rows, r.1, owner, slots, r.2);
    FormOwnerIsPlain(s.rows, s.next, f, certKey, owner, slots);
    hide WellFormed, SaveGroupForm, ClientSave, Saved;
    SaveKeepsPlain(s.rows, r.1, owner, slots);
  }

  lemma FormOwnerIsPlain(v: Vault, next: Id, f: GroupForm, certKey: CertKeys, owner: Payload, s: seq<PlanSwaps.Swap>)
    requires SaveGroupForm(v, next, f, certKey).Ok? &&
        GroupSaved(v, next, f.id, f.parentId, SaveGroupForm(v, next, f, certKey).value, owner, s)
    requires GroupsPlain(v)
    ensures owner.GroupP? && owner.group.telnetConfigId.None?
  {
    GroupFormShape(v, next, f, certKey);
    var r := SaveGroupForm(v, next, f, certKey).value;
    assert r.0[r.1] == owner;
    hide SaveGroupForm, GroupFormSlot, ClientSave, Saved;
  }

  lemma DeleteGroupIsGood(s: State, id: Id)
    requires Good(s) && Fits(s.rows, DeleteGroupOp(id))
    ensures Good(State(DeleteGroup(s.rows, id), s.next))
  {
    if id in s.rows && s.rows[id].GroupP? { DeleteGroupKeepsWellFormedExactly(s.rows, s.next, id); }
    hide WellFormed, GroupDrops;
  }

  lemma OpKeepsGood(s: State, op: Op, certKey: CertKeys, bound: Payload -> Option<Id>)
    requires Good(s) && Fits(s.rows, op) && Perform(s, op, certKey, bound).Ok?
    ensures Good(Perform(s, op, certKey, bound).value)
  {
    hide Good, SaveHost, CopyHost, DuplicateHost, SaveGroup, SaveGroupForm, DeleteGroup, DeleteHost;
    match op
    case SaveHostOp(f) => SaveHostIsGood(s, f, certKey);
    case DeleteHostOp(id) => DeleteHostIsGood(s, id, bound);
    case DuplicateOp(id, token, ok) => DuplicateIsGood(s, id, token, ok, certKey);
    case CopyHostOp(id, name, group, token, ok) => CopyHostIsGood(s, id, name, group, token, ok, certKey);
    case SaveGroupOp(id, name, parent) => SaveGroupIsGood(s, id, name, parent);
    case SaveGroupFormOp(f) => SaveGroupFormIsGood(s, f, certKey);
    case DeleteGroupOp(id) => DeleteGroupIsGood(s, id);
  }

  ghost predicate Step(s: State, op: Op, certKey: CertKeys, bound: Payload -> Option<Id>, t: State) {
    Fits(s.rows, op) && Perform(s, op, certKey, bound) == Ok(t)
  }

  /** A run of successful edits, each fitting the rows it meets. */
  ghost predicate Run(states: seq<State>, ops: seq<Op>, certKey: CertKeys, bound: Payload -> Option<Id>) {
    |states| == |ops| + 1 && forall k :: 0 <= k < |ops| ==> Step(states[k], ops[k], certKey, bound, states[k + 1])
  }

  /** Every successful run of host and group edits, started on a well-formed
      vault whose groups have no Telnet defaults, ends on one: each config has
      one owner, each inline identity one config, and nothing is orphaned. */
  lemma {:induction false} RunKeepsOwnership(states: seq<State>, ops: seq<Op>, certKey: CertKeys,
      bound: Payload -> Option<Id>, n: nat)
    requires Run(states, ops, certKey, bound) && Good(states[0]) && n < |states|
    ensures Good(states[n])
  {
    hide Good, Perform, Fits;
    if n > 0 {
      RunKeepsOwnership(states, ops, certKey, bound, n - 1);
      assert Step(states[n - 1], ops[n - 1], certKey, bound, states[n]);
      OpKeepsGood(states[n - 1], ops[n - 1], certKey, bound);
    }
  }

  // ----- edits made of edits -----

  /** Where a list of edits leads, each fitting the rows it meets. */
  function Ran(s: State, ops: seq<Op>, certKey: CertKeys, bound: Payload -> Option<Id>): Option<State> {
    if ops == [] then Some(s)
    else
      match Ran(s, ops[..|ops| - 1], certKey, bound)
      case None => None
      case Some(m) =>
        var op := ops[|ops| - 1];
        if Fits(m.rows, op) && Perform(m, op, certKey, bound).Ok? then Some(Perform(m, op, certKey, bound).value)
          else None
  }

  lemma NothingRan(s: State, certKey: CertKeys, bound: Payload -> Option<Id>)
    ensures Ran(s, [], certKey, bound) == Some(s)
  {
  }

  lemma GoodIsWellFormed(s: State)
    requires Good(s)
    ensures WellFormed(s.rows)
  {
  }

  /** One more edit. */
  lemma RanStep(s: State, ops: seq<Op>, m: State, op: Op, t: State, certKey: CertKeys, bound: Payload -> Option<Id>)
    requires Ran(s, ops, certKey, bound) == Some(m) && Step(m, op, certKey, bound, t)
    ensures Ran(s, ops + [op], certKey, bound) == Some(t)
  {
    assert (ops + [op])[..|ops|] == ops;
  }

  lemma {:induction false} RanThen(s: State, a: seq<Op>, m: State, b: seq<Op>, certKey: CertKeys,
      bound: Payload -> Option<Id>)
    requires Ran(s, a, certKey, bound) == Some(m)
    ensures Ran(s, a + b, certKey, bound) == Ran(m, b, certKey, bound)
  {
    if b == [] {
      assert a + b == a;
    } else {
      assert (a + b)[..|a + b| - 1] == a + b[..|b| - 1];
      RanThen(s, a, m, b[..|b| - 1], certKey, bound);
    }
  }

  /** Such a list keeps ownership, whatever it is made of. */
  lemma {:induction false} RanKeepsGood(s: State, ops: seq<Op>, certKey: CertKeys, bound: Payload -> Option<Id>)
    requires Good(s) && Ran(s, ops, certKey, bound).Some?
    ensures Good(Ran(s, ops, certKey, bound).value)
  {
    hide Good, Perform, Fits;
    if ops != [] {
      var init := ops[..|ops| - 1];
      RanKeepsGood(s, init, certKey, bound);
      OpKeepsGood(Ran(s, init, certKey, bound).value, ops[|ops| - 1], certKey, bound);
    }
  }
}
