/** Adopting the server's vault list: which offered keys may replace the one
    held, and what that does to the rows sealed under it. */
module VaultKeys {
  import opened Wrappers

  type VaultId = nat
  type RowId = nat

  datatype Key = Key(bytes: nat)

  /** Who can have produced an envelope: anyone, or only a holder of the account key. */
  datatype Origin = Anonymous | SelfAuthenticated

  datatype Envelope = BoxFor(owner: nat, key: Key, origin: Origin) | Mangled

  function OpenChecked(me: nat, sealed: Option<Envelope>): Option<(Key, Origin)> {
    match sealed
    case Some(BoxFor(owner, key, origin)) => if owner == me then Some((key, origin)) else None
    case _ => None
  }

  datatype VaultKind = Local | Personal | Team

  /** `key` is `None` while our sealed key is pending. */
  datatype LocalVault = LocalVault(kind: VaultKind, name: string, key: Option<Key>, keyVersion: int, logging: bool,
      isDefault: bool)

  datatype RemoteVault = RemoteVault(
    id: VaultId, personal: bool, name: string, keyVersion: int, sealedKey: Option<Envelope>, logging: bool,
      isDefault: bool)

  /** The stored text of a row. */
  datatype Blob =
    | Sealed(key: Key, kind: string, id: RowId, plain: string)
    | Junk
    | NotBase64

  datatype Row = Row(vault: VaultId, kind: string, deleted: bool, keyVersion: int, data: Blob, dirty: bool)

  datatype State = State(vaults: map<VaultId, LocalVault>, rows: map<RowId, Row>)

  /** What a row reads as under `key`; the label plays no part. */
  function Reads(key: Key, id: RowId, r: Row): Option<string> {
    if r.data.Sealed? && r.data.key == key && r.data.kind == r.kind && r.data.id == id then Some(r.data.plain) else None
  }

  // ----- which key to hold -----

  datatype Decision = Decision(install: Option<Key>, rotatedFrom: Option<Key>, keyVersion: int)

  function Decide(held: Option<(Key, int)>, offered: Option<(Key, Origin)>, v: RemoteVault): Decision {
    match (held, offered)
    case (None, Some(o)) => Decision(Some(o.0), None, v.keyVersion)
    case (None, None) => Decision(None, None, v.keyVersion)
    case (Some(h), None) => Decision(None, None, h.1)
    case (Some(h), Some(o)) =>
      if h.1 == v.keyVersion || v.keyVersion < h.1 then Decision(None, None, h.1)
      else if v.personal && o.1 != SelfAuthenticated then Decision(None, None, h.1)
      else Decision(Some(o.0), Some(h.0), v.keyVersion)
  }

  /** The key in use and the version listed when the call began. */
  function HeldKey(vaults: map<VaultId, LocalVault>, local: map<VaultId, LocalVault>, id: VaultId): Option<(Key, int)> {
    if id in local && local[id].key.Some? && id in vaults && vaults[id].key.Some?
    then Some((vaults[id].key.value, local[id].keyVersion)) else None
  }

  function DecisionFor(s: State, local: map<VaultId, LocalVault>, v: RemoteVault, me: nat): Decision {
    Decide(HeldKey(s.vaults, local, v.id), OpenChecked(me, v.sealedKey), v)
  }

  /** A missing key leaves the one stored in place. */
  function Upserted(vaults: map<VaultId, LocalVault>, v: RemoteVault, d: Decision): map<VaultId, LocalVault> {
    var key := if d.install.Some? then d.install else if v.id in vaults then vaults[v.id].key else None;
    vaults[v.id := LocalVault(if v.personal then Personal else Team, v.name, key, d.keyVersion, v.logging, v.isDefault)]
  }

  // ----- re-encrypting after a rotation -----

  /** Rows of the vault that carry another version than the vault's. */
  predicate Due(r: Row, vault: VaultId, keyVersion: int) {
    r.vault == vault && !r.deleted && r.keyVersion != keyVersion
  }

  function ResealedRow(id: RowId, r: Row, vault: VaultId, from: Key, to: Key, keyVersion: int): Row {
    if Due(r, vault, keyVersion) && Reads(from, id, r).Some?
    then r.(data := Sealed(to, r.kind, id, Reads(from, id, r).value), keyVersion := keyVersion, dirty := true)
    else r
  }

  function Resealed(rows: map<RowId, Row>, vault: VaultId, from: Key, to: Key, keyVersion: int): map<RowId, Row> {
    map id | id in rows :: ResealedRow(id, rows[id], vault, from, to, keyVersion)
  }

  /** A row that is due but is not even base64 stops the re-encryption. */
  predicate Blocked(rows: map<RowId, Row>, vault: VaultId, keyVersion: int) {
    exists id :: id in rows && Due(rows[id], vault, keyVersion) && rows[id].data.NotBase64?
  }

  /** Where a stopped re-encryption leaves the rows: some done, the others as they were. */
  ghost predicate PartlyResealed(
    was: map<RowId, Row>, now: map<RowId, Row>, vault: VaultId, from: Key, to: Key, keyVersion: int)
  {
    && now.Keys == was.Keys
    && forall id :: id in was ==> now[id] == was[id] || now[id] == ResealedRow(id, was[id], vault, from, to, keyVersion)
  }

  // ----- one vault of the list, and the whole list -----

  function AdoptOne(s: State, local: map<VaultId, LocalVault>, v: RemoteVault, me: nat): State {
    var d := DecisionFor(s, local, v, me);
    State(Upserted(s.vaults, v, d),
          if d.rotatedFrom.Some? && d.install.Some?
          then Resealed(s.rows, v.id, d.rotatedFrom.value, d.install.value, d.keyVersion) else s.rows)
  }

  predicate AdoptFails(s: State, local: map<VaultId, LocalVault>, v: RemoteVault, me: nat) {
    var d := DecisionFor(s, local, v, me);
    d.rotatedFrom.Some? && Blocked(s.rows, v.id, d.keyVersion)
  }

  /** Where a failed adoption leaves the store: the new key is in, the rows are partly done. */
  ghost predicate HalfAdopted(s: State, local: map<VaultId, LocalVault>, v: RemoteVault, me: nat, t: State) {
    var d := DecisionFor(s, local, v, me);
    && d.rotatedFrom.Some? && d.install.Some? && t.vaults == Upserted(s.vaults, v, d)
    && PartlyResealed(s.rows, t.rows, v.id, d.rotatedFrom.value, d.install.value, d.keyVersion)
  }

  function AdoptAll(s: State, local: map<VaultId, LocalVault>, remote: seq<RemoteVault>, me: nat): State {
    if remote == [] then s
    else AdoptOne(AdoptAll(s, local, remote[..|remote| - 1], me), local, remote[|remote| - 1], me)
  }

  predicate IsListed(remote: seq<RemoteVault>, id: VaultId) { exists k :: 0 <= k < |remote| && remote[k].id == id }

  /** Synced vaults no longer listed go, with everything in them. */
  predicate Stays(local: map<VaultId, LocalVault>, remote: seq<RemoteVault>, id: VaultId) {
    id in local && local[id].kind != Local ==> IsListed(remote, id)
  }

  function Pruned(s: State, local: map<VaultId, LocalVault>, remote: seq<RemoteVault>): State {
    State(map id | id in s.vaults && Stays(local, remote, id) :: s.vaults[id],
          map id | id in s.rows && Stays(local, remote, s.rows[id].vault) :: s.rows[id])
  }

  ghost predicate Distinct(remote: seq<RemoteVault>) {
    forall i, j :: 0 <= i < j < |remote| ==> remote[i].id != remote[j].id
  }

  /** Everything a call may leave behind: the list adopted and pruned, or stopped at vault `n`. */
  ghost predicate StoppedAt(s: State, remote: seq<RemoteVault>, me: nat, t: State, n: nat)
    requires n < |remote|
  {
    var before := AdoptAll(s, s.vaults, remote[..n], me);
    AdoptFails(before, s.vaults, remote[n], me) && HalfAdopted(before, s.vaults, remote[n], me, t)
  }

  ghost predicate StoppedSomewhere(s: State, remote: seq<RemoteVault>, me: nat, t: State) {
    exists n :: 0 <= n < |remote| && StoppedAt(s, remote, me, t, n)
  }

  ghost predicate NothingFails(s: State, remote: seq<RemoteVault>, me: nat) {
    forall n :: 0 <= n < |remote| ==> !AdoptFails(AdoptAll(s, s.vaults, remote[..n], me), s.vaults, remote[n], me)
  }

  function Adopted(s: State, remote: seq<RemoteVault>, me: nat): State {
    Pruned(AdoptAll(s, s.vaults, remote, me), s.vaults, remote)
  }

  ghost predicate Applied(s: State, remote: seq<RemoteVault>, me: nat, t: State, ok: bool) {
    if ok then NothingFails(s, remote, me) && t == Adopted(s, remote, me)
    else StoppedSomewhere(s, remote, me, t)
  }

  /** Personal vaults whose opened envelope anyone could have made: to be sealed anew. */
  predicate WantsReseal(s: State, local: map<VaultId, LocalVault>, v: RemoteVault, me: nat) {
    var d, offered := DecisionFor(s, local, v, me), OpenChecked(me, v.sealedKey);
    && v.personal && (d.install.Some? || (v.id in local && local[v.id].key.Some?))
    && d.keyVersion == v.keyVersion && offered.Some? && offered.value.1 == Anonymous
  }

  /** The vault ends up with a key. */
  predicate Unlocks(s: State, local: map<VaultId, LocalVault>, v: RemoteVault, me: nat) {
    DecisionFor(s, local, v, me).install.Some? || (v.id in local && local[v.id].key.Some?)
  }

  /** The listed vaults, personal or not, that end up with a key. */
  function UnlockedIn(s: State, local: map<VaultId, LocalVault>, remote: seq<RemoteVault>, me: nat, personal: bool):
      seq<VaultId>
  {
    if remote == [] then []
    else
      var before, v := remote[..|remote| - 1], remote[|remote| - 1];
      UnlockedIn(s, local, before, me, personal) +
      if v.personal == personal && Unlocks(AdoptAll(s, local, before, me), local, v, me) then [v.id] else []
  }

  function ResealIn(s: State, local: map<VaultId, LocalVault>, remote: seq<RemoteVault>, me: nat): seq<(VaultId, int)> {
    if remote == [] then []
    else
      var before, v := remote[..|remote| - 1], remote[|remote| - 1];
      ResealIn(s, local, before, me) +
      if WantsReseal(AdoptAll(s, local, before, me), local, v, me) then [(v.id, v.keyVersion)] else []
  }

  // ----- the store -----

  class Store {
    var vaults: map<VaultId, LocalVault>
    var rows: map<RowId, Row>

    ghost function Now(): State
      reads this
    {
      State(vaults, rows)
    }

    constructor ()
      ensures Now() == State(map[], map[])
    {
      vaults, rows := map[], map[];
    }

    /** The live rows of a vault, each once, in whatever order they were last touched. */
    method Rows(vault: VaultId) returns (ids: seq<RowId>)
      ensures forall id :: id in ids <==> id in rows && rows[id].vault == vault && !rows[id].deleted
      ensures forall i, j :: 0 <= i < j < |ids| ==> ids[i] != ids[j]
    {
      ids := [];
      var left := rows.Keys;
      while left != {}
        invariant left <= rows.Keys
        invariant forall id :: id in ids <==> id in rows && id !in left && rows[id].vault == vault && !rows[id].deleted
        invariant forall i, j :: 0 <= i < j < |ids| ==> ids[i] != ids[j]
      {
        var id :| id in left;
        left := left - {id};
        if rows[id].vault == vault && !rows[id].deleted {
          ids := ids + [id];
        }
      }
    }

    method UpsertVault(v: RemoteVault, d: Decision)
      modifies this`vaults
      ensures vaults == Upserted(old(vaults), v, d)
    {
      var key := d.install;
      if key.None? && v.id in vaults {
        key := vaults[v.id].key;
      }
      vaults := vaults[v.id := LocalVault(if v.personal then Personal else Team, v.name, key, d.keyVersion, v.logging,
        v.isDefault)];
    }

    /** Re-seal one row from the old key; a row that is not base64 is an error. */
    method ReencryptRow(id: RowId, vault: VaultId, from: Key, to: Key, keyVersion: int) returns (ok: bool)
      requires id in rows
      modifies this`rows
      ensures ok <==> !(Due(old(rows)[id], vault, keyVersion) && old(rows)[id].data.NotBase64?)
      ensures rows == old(rows)[id := ResealedRow(id, old(rows)[id], vault, from, to, keyVersion)]
    {
      var r := rows[id];
      if !Due(r, vault, keyVersion) { return true; }
      if r.data.NotBase64? { return false; }
      var plain := Reads(from, id, r);
      if plain.Some? {
        rows := rows[id := r.(data := Sealed(to, r.kind, id, plain.value), keyVersion := keyVersion, dirty := true)];
      }
      ok := true;
    }

    /** Re-encrypt a vault's rows under its current key. Rows labelled with the
        current version are skipped unread. */
    method ReencryptVault(vault: VaultId, from: Key) returns (ok: bool)
      requires vault in vaults && vaults[vault].key.Some?
      modifies this`rows
      ensures ok <==> !Blocked(old(rows), vault, vaults[vault].keyVersion)
      ensures ok ==> rows == Resealed(old(rows), vault, from, vaults[vault].key.value, vaults[vault].keyVersion)
      ensures PartlyResealed(old(rows), rows, vault, from, vaults[vault].key.value, vaults[vault].keyVersion)
    {
      var to, keyVersion := vaults[vault].key.value, vaults[vault].keyVersion;
      ghost var was := rows;
      var ids := Rows(vault);
      for i := 0 to |ids|
        invariant rows.Keys == was.Keys
        invariant forall id :: id in was && id in ids[..i] ==>
            rows[id] == ResealedRow(id, was[id], vault, from, to, keyVersion)
        invariant forall id :: id in was && id !in ids[..i] ==> rows[id] == was[id]
        invariant forall id :: id in ids[..i] ==> !(Due(was[id], vault, keyVersion) && was[id].data.NotBase64?)
      {
        assert ids[i] !in ids[..i];
        assert ids[..i + 1] == ids[..i] + [ids[i]];
        var done := ReencryptRow(ids[i], vault, from, to, keyVersion);
        if !done {
          assert Due(was[ids[i]], vault, keyVersion);
          return false;
        }
      }
      assert ids[..|ids|] == ids;
      ok := true;
    }

    /** Mirror one listed vault. */
    method Adopt(local: map<VaultId, LocalVault>, v: RemoteVault, me: nat)
        returns (ok: bool, unlocked: bool, reseal: bool)
      modifies this
      ensures ok <==> !AdoptFails(old(Now()), local, v, me)
      ensures if ok then Now() == AdoptOne(old(Now()), local, v, me) else HalfAdopted(old(Now()), local, v, me, Now())
      ensures ok ==> unlocked == Unlocks(old(Now()), local, v, me) && reseal == WantsReseal(old(Now()), local, v, me)
    {
      var offered := OpenChecked(me, v.sealedKey);
      var d := Decide(HeldKey(vaults, local, v.id), offered, v);
      UpsertVault(v, d);
      ok, unlocked, reseal := true, false, false;
      if d.rotatedFrom.Some? {
        ok := ReencryptVault(v.id, d.rotatedFrom.value);
        if !ok { return; }
      }
      unlocked := d.install.Some? || (v.id in local && local[v.id].key.Some?);
      reseal := v.personal && unlocked && d.keyVersion == v.keyVersion && offered.Some? && offered.value.1 == Anonymous;
    }

    method Prune(local: map<VaultId, LocalVault>, remote: seq<RemoteVault>)
      modifies this
      ensures Now() == Pruned(old(Now()), local, remote)
    {
      vaults := map id | id in vaults && Stays(local, remote, id) :: vaults[id];
      rows := map id | id in rows && Stays(local, remote, rows[id].vault) :: rows[id];
    }

    /** Mirror every listed vault in turn, up to the first that fails. */
    method AdoptList(remote: seq<RemoteVault>, me: nat)
      returns (ok: bool, personal: seq<VaultId>, teams: seq<VaultId>, reseal: seq<(VaultId, int)>)
      modifies this
      ensures if ok then NothingFails(old(Now()), remote, me) && Now() == AdoptAll(old(Now()), old(vaults), remote, me)
              else StoppedSomewhere(old(Now()), remote, me, Now())
      ensures ok ==> personal == UnlockedIn(old(Now()), old(vaults), remote, me, true)
      ensures ok ==> teams == UnlockedIn(old(Now()), old(vaults), remote, me, false)
      ensures ok ==> reseal == ResealIn(old(Now()), old(vaults), remote, me)
    {
      hide AdoptFails, HalfAdopted, AdoptOne, Unlocks, WantsReseal;
      var local := vaults;
      ghost var s := Now();
      personal, teams, reseal := [], [], [];
      for i := 0 to |remote|
        invariant Now() == AdoptAll(s, local, remote[..i], me)
        invariant forall n :: 0 <= n < i ==> !AdoptFails(AdoptAll(s, local, remote[..n], me), local, remote[n], me)
        invariant personal == UnlockedIn(s, local, remote[..i], me, true) &&
            teams == UnlockedIn(s, local, remote[..i], me, false)
        invariant reseal == ResealIn(s, local, remote[..i], me)
      {
        var v := remote[i];
        OneMoreListed(s, local, remote, me, i);
        var unlocked, anew;
        ok, unlocked, anew := Adopt(local, v, me);
        if !ok {
          assert StoppedAt(s, remote, me, Now(), i);
          return;
        }
        if unlocked && v.personal { personal := personal + [v.id]; }
        if unlocked && !v.personal { teams := teams + [v.id]; }
        if anew { reseal := reseal + [(v.id, v.keyVersion)]; }
      }
      assert remote[..|remote|] == remote;
      ok := true;
    }

    /** Mirror the server's vault list: `Ok` lists the vaults whose key we hold,
        personal ones first, and the personal ones to seal anew. */
    method ApplyVaultList(remote: seq<RemoteVault>, me: nat)
        returns (r: Result<(seq<VaultId>, seq<(VaultId, int)>), ()>)
      modifies this
      ensures Applied(old(Now()), remote, me, Now(), r.Ok?)
      ensures r.Ok? ==> r.value == Answer(old(Now()), remote, me)
    {
      var local := vaults;
      var ok, personal, teams, reseal := AdoptList(remote, me);
      if !ok { return Err(()); }
      Prune(local, remote);
      r := Ok((personal + teams, reseal));
    }
  }

  function Answer(s: State, remote: seq<RemoteVault>, me: nat): (seq<VaultId>, seq<(VaultId, int)>) {
    (UnlockedIn(s, s.vaults, remote, me, true) + UnlockedIn(s, s.vaults, remote, me, false),
      ResealIn(s, s.vaults, remote, me))
  }

  lemma OneMoreListed(s: State, local: map<VaultId, LocalVault>, remote: seq<RemoteVault>, me: nat, i: nat)
    requires i < |remote|
    ensures
      var before := AdoptAll(s, local, remote[..i], me);
      && AdoptAll(s, local, remote[..i + 1], me) == AdoptOne(before, local, remote[i], me)
      && ResealIn(s, local, remote[..i + 1], me) == ResealIn(s, local, remote[..i], me) +
           (if WantsReseal(before, local, remote[i], me) then [(remote[i].id, remote[i].keyVersion)] else [])
      && forall personal ::
           UnlockedIn(s, local, remote[..i + 1], me, personal) == UnlockedIn(s, local, remote[..i], me, personal) +
             if remote[i].personal == personal && Unlocks(before, local, remote[i], me) then [remote[i].id] else []
  {
    hide AdoptOne, Unlocks, WantsReseal;
    assert remote[..i + 1][..i] == remote[..i];
  }
}
