/** What holds of vault keys and sealed rows over every run of server lists. */
module VaultKeyRuns {
  import opened Wrappers
  import opened VaultKeys

  // ----- one call, vault by vault and row by row -----

  lemma {:induction false} UnlistedVault(s: State, remote: seq<RemoteVault>, me: nat, id: VaultId)
    requires !IsListed(remote, id)
    ensures
      var t := AdoptAll(s, s.vaults, remote, me);
      (id in t.vaults <==> id in s.vaults) && (id in s.vaults ==> t.vaults[id] == s.vaults[id])
  {
    if remote != [] {
      var n := |remote| - 1;
      assert remote[n].id != id;
      if IsListed(remote[..n], id) { assert IsListed(remote, id); }
      UnlistedVault(s, remote[..n], me, id);
    }
  }

  lemma PrefixMisses(remote: seq<RemoteVault>, n: nat)
    requires Distinct(remote) && n < |remote|
    ensures Distinct(remote[..n]) && !IsListed(remote[..n], remote[n].id)
  {
  }

  /** With distinct ids each entry is decided on the vault as the call found it. */
  lemma {:induction false} ListedVault(s: State, remote: seq<RemoteVault>, me: nat, i: nat)
    requires Distinct(remote) && i < |remote|
    ensures
      var t := AdoptAll(s, s.vaults, remote, me);
      remote[i].id in t.vaults && t.vaults[remote[i].id] == AdoptOne(s, s.vaults, remote[i], me).vaults[remote[i].id]
  {
    var n := |remote| - 1;
    PrefixMisses(remote, n);
    if i == n {
      UnlistedVault(s, remote[..n], me, remote[n].id);
    } else {
      ListedVault(s, remote[..n], me, i);
    }
  }

  lemma SameDecision(s: State, remote: seq<RemoteVault>, me: nat, n: nat)
    requires Distinct(remote) && n < |remote|
    ensures DecisionFor(AdoptAll(s, s.vaults, remote[..n], me), s.vaults, remote[n], me) ==
        DecisionFor(s, s.vaults, remote[n], me)
  {
    PrefixMisses(remote, n);
    UnlistedVault(s, remote[..n], me, remote[n].id);
  }

  /** The row's fate is settled by the entry of its vault, if there is one. */
  function RowAfter(s: State, remote: seq<RemoteVault>, me: nat, x: RowId): Row
    requires x in s.rows
  {
    if remote == [] then s.rows[x]
    else
      var v := remote[|remote| - 1];
      if v.id == s.rows[x].vault then AdoptOne(s, s.vaults, v, me).rows[x]
      else RowAfter(s, remote[..|remote| - 1], me, x)
  }

  lemma {:induction false} UnlistedRow(s: State, remote: seq<RemoteVault>, me: nat, x: RowId)
    requires x in s.rows && !IsListed(remote, s.rows[x].vault)
    ensures RowAfter(s, remote, me, x) == s.rows[x]
  {
    if remote != [] {
      var n := |remote| - 1;
      assert remote[n].id != s.rows[x].vault;
      if IsListed(remote[..n], s.rows[x].vault) { assert IsListed(remote, s.rows[x].vault); }
      UnlistedRow(s, remote[..n], me, x);
    }
  }

  lemma {:induction false} RowsAfter(s: State, remote: seq<RemoteVault>, me: nat, x: RowId)
    requires Distinct(remote) && x in s.rows
    ensures
      var t := AdoptAll(s, s.vaults, remote, me);
      x in t.rows && t.rows[x] == RowAfter(s, remote, me, x) && t.rows[x].vault == s.rows[x].vault
  {
    if remote != [] {
      var n := |remote| - 1;
      PrefixMisses(remote, n);
      RowsAfter(s, remote[..n], me, x);
      SameDecision(s, remote, me, n);
      if remote[n].id == s.rows[x].vault { UnlistedRow(s, remote[..n], me, x); }
    }
  }

  lemma {:induction false} ListedRow(s: State, remote: seq<RemoteVault>, me: nat, x: RowId, i: nat)
    requires Distinct(remote) && x in s.rows && i < |remote| && remote[i].id == s.rows[x].vault
    ensures RowAfter(s, remote, me, x) == AdoptOne(s, s.vaults, remote[i], me).rows[x]
  {
    var n := |remote| - 1;
    if i < n {
      assert remote[n].id != remote[i].id;
      PrefixMisses(remote, n);
      ListedRow(s, remote[..n], me, x, i);
    }
  }

  // ----- keys -----

  /** A held key is kept or replaced by one of a higher version. */
  predicate Advances(a: LocalVault, b: LocalVault) {
    a.key.Some? ==> b.key.Some? && a.keyVersion <= b.keyVersion && (a.keyVersion == b.keyVersion ==> a.key == b.key)
  }

  predicate KeyMadeByUs(v: RemoteVault, me: nat, key: Key) {
    OpenChecked(me, v.sealedKey) == Some((key, SelfAuthenticated))
  }

  /** What one entry of a list may do to a vault. */
  lemma EntryAdvances(s: State, v: RemoteVault, me: nat)
    requires v.id in s.vaults
    ensures
      var after := AdoptOne(s, s.vaults, v, me).vaults[v.id];
      && Advances(s.vaults[v.id], after)
      && (v.personal && s.vaults[v.id].key.Some? && after.key != s.vaults[v.id].key ==>
        KeyMadeByUs(v, me, after.key.value))
  {
  }

  /** Entry `i` decided what the vault holds now. */
  predicate DecidedBy(s: State, remote: seq<RemoteVault>, me: nat, id: VaultId, now: LocalVault, i: nat)
    requires i < |remote|
  {
    remote[i].id == id && now == AdoptOne(s, s.vaults, remote[i], me).vaults[id]
  }

  /** Whatever a call leaves behind, finished or not: each vault it still has is
      as it was or as its entry decided. */
  lemma CallPerVault(s: State, remote: seq<RemoteVault>, me: nat, t: State, ok: bool, id: VaultId)
    requires Applied(s, remote, me, t, ok) && Distinct(remote) && id in s.vaults && id in t.vaults
    ensures t.vaults[id] == s.vaults[id] ||
        exists i :: 0 <= i < |remote| && DecidedBy(s, remote, me, id, t.vaults[id], i)
  {
    if ok {
      PrefixPerVault(s, remote, me, |remote|, id);
      assert remote[..|remote|] == remote;
    } else {
      var n :| 0 <= n < |remote| && StoppedAt(s, remote, me, t, n);
      PrefixPerVault(s, remote, me, n, id);
      if remote[n].id == id {
        SameDecision(s, remote, me, n);
        PrefixMisses(remote, n);
        UnlistedVault(s, remote[..n], me, id);
        assert DecidedBy(s, remote, me, id, t.vaults[id], n);
      }
    }
  }

  lemma PrefixPerVault(s: State, remote: seq<RemoteVault>, me: nat, n: nat, id: VaultId)
    requires Distinct(remote) && n <= |remote| && id in s.vaults
    ensures
      var t := AdoptAll(s, s.vaults, remote[..n], me);
      && id in t.vaults
      && (t.vaults[id] == s.vaults[id] ||
          exists i :: 0 <= i < |remote| && DecidedBy(s, remote, me, id, t.vaults[id], i))
  {
    var before := remote[..n];
    assert Distinct(before);
    if IsListed(before, id) {
      var k :| 0 <= k < |before| && before[k].id == id;
      ListedVault(s, before, me, k);
      assert DecidedBy(s, remote, me, id, AdoptAll(s, s.vaults, before, me).vaults[id], k);
    } else {
      UnlistedVault(s, before, me, id);
    }
  }

  /** A vault that is held before and after a call, finished or not: its key
      version never went back, and at the same version it is the same key. */
  lemma CallNeverGoesBack(s: State, remote: seq<RemoteVault>, me: nat, t: State, ok: bool, id: VaultId)
    requires Applied(s, remote, me, t, ok) && Distinct(remote) && id in s.vaults && id in t.vaults
    ensures Advances(s.vaults[id], t.vaults[id])
  {
    CallPerVault(s, remote, me, t, ok, id);
    if t.vaults[id] != s.vaults[id] {
      var i :| 0 <= i < |remote| && DecidedBy(s, remote, me, id, t.vaults[id], i);
      EntryAdvances(s, remote[i], me);
    }
  }

  predicate OnlyPersonal(remote: seq<RemoteVault>, id: VaultId) {
    forall v :: v in remote && v.id == id ==> v.personal
  }

  predicate OffersOurs(remote: seq<RemoteVault>, me: nat, id: VaultId, key: Key) {
    exists v :: v in remote && v.id == id && KeyMadeByUs(v, me, key)
  }

  /** A held personal vault only changes to a key that we sealed ourselves. */
  lemma CallKeepsPersonalKeysOurs(s: State, remote: seq<RemoteVault>, me: nat, t: State, ok: bool, id: VaultId)
    requires Applied(s, remote, me, t, ok) && Distinct(remote) && id in s.vaults && id in t.vaults
    requires OnlyPersonal(remote, id) && s.vaults[id].key.Some? && t.vaults[id].key != s.vaults[id].key
    ensures t.vaults[id].key.Some? && OffersOurs(remote, me, id, t.vaults[id].key.value)
  {
    CallPerVault(s, remote, me, t, ok, id);
    var i :| 0 <= i < |remote| && DecidedBy(s, remote, me, id, t.vaults[id], i);
    EntryAdvances(s, remote[i], me);
    assert remote[i] in remote;
  }

  // ----- runs -----

  /** Lists arrive; between them local edits and pulls change rows, never vaults. */
  datatype Event = List(remote: seq<RemoteVault>, ok: bool) | RowsChange

  ghost predicate Step(s: State, e: Event, me: nat, t: State) {
    match e
    case List(remote, ok) => Applied(s, remote, me, t, ok) && Distinct(remote)
    case RowsChange => t.vaults == s.vaults
  }

  ghost predicate Run(states: seq<State>, events: seq<Event>, me: nat) {
    |states| == |events| + 1 && forall i :: 0 <= i < |events| ==> Step(states[i], events[i], me, states[i + 1])
  }

  /** `id` is there in every state from `i` to `j`. */
  predicate Present(states: seq<State>, id: VaultId, i: nat, j: nat)
    requires i <= j < |states|
  {
    forall k :: i <= k <= j ==> id in states[k].vaults
  }

  /** Over any run, while a held vault stays listed its key version never
      decreases and equal versions mean equal keys. */
  lemma {:induction false} RunNeverGoesBack(states: seq<State>, events: seq<Event>, me: nat, id: VaultId, i: nat,
      j: nat)
    requires Run(states, events, me) && i <= j < |states| && Present(states, id, i, j) && states[i].vaults[id].key.Some?
    ensures Advances(states[i].vaults[id], states[j].vaults[id])
    decreases j - i
  {
    if i < j {
      RunNeverGoesBack(states, events, me, id, i, j - 1);
      var e := events[j - 1];
      assert Step(states[j - 1], e, me, states[j]);
      if e.List? { CallNeverGoesBack(states[j - 1], e.remote, me, states[j], e.ok, id); }
    }
  }

  ghost predicate AlwaysPersonal(events: seq<Event>, id: VaultId) {
    forall k :: 0 <= k < |events| && events[k].List? ==> OnlyPersonal(events[k].remote, id)
  }

  /** Over any run, a vault that is always listed as personal holds the key it
      had or one that a list offered in an envelope only we can have made. */
  lemma {:induction false} RunKeepsPersonalKeysOurs(states: seq<State>, events: seq<Event>, me: nat, id: VaultId,
      i: nat, j: nat)
    requires Run(states, events, me) && i <= j < |states| && Present(states, id, i, j) && states[i].vaults[id].key.Some?
    requires AlwaysPersonal(events, id)
    ensures states[j].vaults[id].key.Some?
    ensures states[j].vaults[id].key == states[i].vaults[id].key ||
      exists k :: i <= k < j && events[k].List? && OffersOurs(events[k].remote, me, id, states[j].vaults[id].key.value)
    decreases j - i
  {
    if i < j {
      RunKeepsPersonalKeysOurs(states, events, me, id, i, j - 1);
      var e := events[j - 1];
      assert Step(states[j - 1], e, me, states[j]);
      if e.List? {
        CallNeverGoesBack(states[j - 1], e.remote, me, states[j], e.ok, id);
        if states[j].vaults[id].key != states[j - 1].vaults[id].key {
          CallKeepsPersonalKeysOurs(states[j - 1], e.remote, me, states[j], e.ok, id);
        }
      }
    }
  }

  /** Why ids must be distinct: listed twice, a vault gets the new key from one
      entry and the old version number back from the other. */
  lemma ListedTwiceSwapsTheKey(h: Key, k: Key, me: nat)
    requires h != k
    ensures
      var s := State(map[1 := LocalVault(Team, "t", Some(h), 1, false, false)], map[]);
      var newer := RemoteVault(1, false, "t", 2, Some(BoxFor(me, k, Anonymous)), false, false);
      var same := newer.(keyVersion := 1);
      var t := AdoptAll(s, s.vaults, [newer, same], me);
      !Advances(s.vaults[1], t.vaults[1])
  {
    var s := State(map[1 := LocalVault(Team, "t", Some(h), 1, false, false)], map[]);
    var newer := RemoteVault(1, false, "t", 2, Some(BoxFor(me, k, Anonymous)), false, false);
    var same := newer.(keyVersion := 1);
    assert [newer, same][..1] == [newer] && [newer][..0] == [];
    var one := AdoptAll(s, s.vaults, [newer], me);
    assert one == AdoptOne(AdoptAll(s, s.vaults, [], me), s.vaults, newer, me);
    assert AdoptAll(s, s.vaults, [newer, same], me) == AdoptOne(one, s.vaults, same, me);
  }

  // ----- plaintexts -----

  /** What the store shows of row `x` under the key it holds. */
  function Shown(s: State, x: RowId): Option<string> {
    if x in s.rows && !s.rows[x].deleted && s.rows[x].vault in s.vaults && s.vaults[s.rows[x].vault].key.Some?
    then Reads(s.vaults[s.rows[x].vault].key.value, x, s.rows[x]) else None
  }

  /** Every row that could be read still can, with the same text, unless its vault went. */
  ghost predicate KeepsPlaintexts(s: State, t: State) {
    forall x :: Shown(s, x).Some? && s.rows[x].vault in t.vaults ==> Shown(t, x) == Shown(s, x)
  }

  /** Entry `v` rotates the key, and live row `x`, sealed under the old key,
      already carries the new version. */
  predicate Stranded(s: State, v: RemoteVault, me: nat, x: RowId) {
    var d := DecisionFor(s, s.vaults, v, me);
    && d.rotatedFrom.Some? && d.install != d.rotatedFrom
    && x in s.rows && s.rows[x].vault == v.id && s.rows[x].keyVersion == v.keyVersion && Shown(s, x).Some?
  }

  lemma EntryKeepsRow(s: State, v: RemoteVault, me: nat, x: RowId)
    requires Shown(s, x).Some? && s.rows[x].vault == v.id
    ensures
      var t := AdoptOne(s, s.vaults, v, me);
      && x in t.rows && !t.rows[x].deleted && t.vaults[v.id].key.Some?
      && Reads(t.vaults[v.id].key.value, x, t.rows[x]) == if Stranded(s, v, me, x) then None else Shown(s, x)
  {
  }

  /** A finished call, row by row. */
  lemma CallPerRow(s: State, remote: seq<RemoteVault>, me: nat, t: State, x: RowId)
    requires Applied(s, remote, me, t, true) && Distinct(remote) && Shown(s, x).Some? && s.rows[x].vault in t.vaults
    ensures Shown(t, x) ==
      if exists i :: 0 <= i < |remote| && Stranded(s, remote[i], me, x) then None else Shown(s, x)
  {
    var id := s.rows[x].vault;
    RowsAfter(s, remote, me, x);
    if IsListed(remote, id) {
      var i :| 0 <= i < |remote| && remote[i].id == id;
      ListedVault(s, remote, me, i);
      ListedRow(s, remote, me, x, i);
      EntryKeepsRow(s, remote[i], me, x);
      assert forall k :: 0 <= k < |remote| && Stranded(s, remote[k], me, x) ==> k == i;
    } else {
      UnlistedVault(s, remote, me, id);
      UnlistedRow(s, remote, me, x);
      assert forall k :: 0 <= k < |remote| ==> remote[k].id != id;
    }
  }

  /** A finished call keeps every plaintext readable exactly when no live row of
      a rotated vault carries the new version while sealed under the old key. */
  lemma PlaintextsKeptExactly(s: State, remote: seq<RemoteVault>, me: nat, t: State)
    requires Applied(s, remote, me, t, true) && Distinct(remote)
    ensures KeepsPlaintexts(s, t) <==> forall i, x :: 0 <= i < |remote| ==> !Stranded(s, remote[i], me, x)
  {
    if forall i, x :: 0 <= i < |remote| ==> !Stranded(s, remote[i], me, x) {
      forall x | Shown(s, x).Some? && s.rows[x].vault in t.vaults
        ensures Shown(t, x) == Shown(s, x)
      {
        CallPerRow(s, remote, me, t, x);
      }
    } else {
      var i, x :| 0 <= i < |remote| && Stranded(s, remote[i], me, x);
      ListedVault(s, remote, me, i);
      assert IsListed(remote, s.rows[x].vault) && s.rows[x].vault in t.vaults;
      CallPerRow(s, remote, me, t, x);
    }
  }

  // ----- honest labels -----

  /** Every key belongs to one version, and rows say which. */
  ghost predicate Honest(s: State, born: Key -> int) {
    && (forall v :: v in s.vaults && s.vaults[v].key.Some? ==> born(s.vaults[v].key.value) == s.vaults[v].keyVersion)
    && (forall x :: x in s.rows && s.rows[x].data.Sealed? ==> born(s.rows[x].data.key) == s.rows[x].keyVersion)
  }

  ghost predicate HonestList(remote: seq<RemoteVault>, me: nat, born: Key -> int) {
    forall v :: v in remote && OpenChecked(me, v.sealedKey).Some? ==>
      born(OpenChecked(me, v.sealedKey).value.0) == v.keyVersion
  }

  lemma EntryKeepsHonest(s: State, local: map<VaultId, LocalVault>, v: RemoteVault, me: nat, born: Key -> int)
    requires Honest(s, born) && HonestList([v], me, born)
    requires v.id in local && local[v.id].key.Some? ==>
      v.id in s.vaults && s.vaults[v.id].key == local[v.id].key && s.vaults[v.id].keyVersion == local[v.id].keyVersion
    requires v.id in s.vaults && s.vaults[v.id].key.Some? ==> v.id in local && local[v.id].key.Some?
    ensures Honest(AdoptOne(s, local, v, me), born)
  {
    assert v in [v];
  }

  lemma {:induction false} ListKeepsHonest(s: State, remote: seq<RemoteVault>, me: nat, born: Key -> int)
    requires Honest(s, born) && HonestList(remote, me, born) && Distinct(remote)
    ensures Honest(AdoptAll(s, s.vaults, remote, me), born)
  {
    if remote != [] {
      var n := |remote| - 1;
      PrefixMisses(remote, n);
      assert HonestList(remote[..n], me, born) && HonestList([remote[n]], me, born);
      ListKeepsHonest(s, remote[..n], me, born);
      UnlistedVault(s, remote[..n], me, remote[n].id);
      EntryKeepsHonest(AdoptAll(s, s.vaults, remote[..n], me), s.vaults, remote[n], me, born);
    }
  }

  lemma HonestNeverStrands(s: State, v: RemoteVault, me: nat, born: Key -> int, x: RowId)
    requires Honest(s, born)
    ensures !Stranded(s, v, me, x)
  {
  }

  /** Edits and pulls label rows honestly, lists offer keys under their own version, calls finish. */
  ghost predicate HonestStep(s: State, e: Event, me: nat, t: State, born: Key -> int) {
    && Step(s, e, me, t)
    && match e
       case List(remote, ok) => ok && HonestList(remote, me, born)
       case RowsChange => Honest(t, born)
  }

  ghost predicate HonestRun(states: seq<State>, events: seq<Event>, me: nat, born: Key -> int) {
    && |states| == |events| + 1 && Honest(states[0], born)
    && forall i :: 0 <= i < |events| ==> HonestStep(states[i], events[i], me, states[i + 1], born)
  }

  lemma {:induction false} HonestRunStaysHonest(states: seq<State>, events: seq<Event>, me: nat, born: Key -> int,
      n: nat)
    requires HonestRun(states, events, me, born) && n < |states|
    ensures Honest(states[n], born)
  {
    if n > 0 {
      HonestRunStaysHonest(states, events, me, born, n - 1);
      var s, e := states[n - 1], events[n - 1];
      assert HonestStep(s, e, me, states[n], born);
      if e.List? { ListKeepsHonest(s, e.remote, me, born); }
    }
  }

  /** Over any honest run, no list ever costs a plaintext. */
  lemma HonestRunKeepsPlaintexts(states: seq<State>, events: seq<Event>, me: nat, born: Key -> int, n: nat)
    requires HonestRun(states, events, me, born) && n < |events| && events[n].List?
    ensures KeepsPlaintexts(states[n], states[n + 1])
  {
    HonestRunStaysHonest(states, events, me, born, n);
    var s, remote := states[n], events[n].remote;
    assert HonestStep(s, events[n], me, states[n + 1], born);
    forall i, x | 0 <= i < |remote|
      ensures !Stranded(s, remote[i], me, x)
    {
      HonestNeverStrands(s, remote[i], me, born, x);
    }
    PlaintextsKeptExactly(s, remote, me, states[n + 1]);
  }

  // ----- stopped half-way -----

  /** After a call stopped at a row that is not base64, listing the vault again
      changes no row: what was not re-sealed stays under the old key for good. */
  lemma RetryDoesNotReseal(s: State, v: RemoteVault, me: nat, t: State, x: RowId)
    requires HalfAdopted(s, s.vaults, v, me, t) && AdoptFails(s, s.vaults, v, me)
    ensures !AdoptFails(t, t.vaults, v, me) && AdoptOne(t, t.vaults, v, me).rows == t.rows
    ensures
      var d := DecisionFor(s, s.vaults, v, me);
      Shown(s, x).Some? && s.rows[x].vault == v.id && t.rows[x] == s.rows[x] && d.install != d.rotatedFrom
      ==> Shown(t, x) == None && Shown(AdoptOne(t, t.vaults, v, me), x) == None
  {
    assert t.vaults[v.id].key.Some? && t.vaults[v.id].keyVersion == v.keyVersion;
    assert DecisionFor(t, t.vaults, v, me).rotatedFrom.None?;
  }

  /** Row `x` belongs to the vault whose adoption stopped, and was not re-sealed to the new key. */
  predicate LeftBehind(s: State, v: RemoteVault, me: nat, t: State, x: RowId) {
    var d := DecisionFor(s, s.vaults, v, me);
    x in s.rows && s.rows[x].vault == v.id && d.install != d.rotatedFrom && x in t.rows && t.rows[x] == s.rows[x]
  }

  lemma StoppedVaultRow(s: State, remote: seq<RemoteVault>, me: nat, t: State, n: nat, x: RowId)
    requires n < |remote| && StoppedAt(s, remote, me, t, n) && Distinct(remote)
    requires Shown(s, x).Some? && s.rows[x].vault == remote[n].id
    ensures Shown(t, x) == if LeftBehind(s, remote[n], me, t, x) then None else Shown(s, x)
  {
    SameDecision(s, remote, me, n);
    PrefixMisses(remote, n);
    UnlistedVault(s, remote[..n], me, remote[n].id);
    RowsAfter(s, remote[..n], me, x);
    UnlistedRow(s, remote[..n], me, x);
  }

  lemma StoppedOtherRow(s: State, remote: seq<RemoteVault>, me: nat, t: State, n: nat, x: RowId)
    requires n < |remote| && StoppedAt(s, remote, me, t, n) && Distinct(remote)
    requires Shown(s, x).Some? && s.rows[x].vault != remote[n].id
    ensures Shown(t, x) == if exists i :: 0 <= i < n && Stranded(s, remote[i], me, x) then None else Shown(s, x)
  {
    var before, id := remote[..n], s.rows[x].vault;
    RowsAfter(s, before, me, x);
    if IsListed(before, id) {
      var i :| 0 <= i < n && before[i].id == id;
      ListedVault(s, before, me, i);
      ListedRow(s, before, me, x, i);
      EntryKeepsRow(s, remote[i], me, x);
      assert forall k :: 0 <= k < n && Stranded(s, remote[k], me, x) ==> k == i;
    } else {
      UnlistedVault(s, before, me, id);
      UnlistedRow(s, before, me, x);
      assert forall k :: 0 <= k < n ==> before[k].id == remote[k].id != id;
    }
  }

  /** A call that stopped at entry `n`, row by row: a plaintext is lost exactly
      when an earlier entry stranded its row, or its row is one of the stopped
      vault's that were not re-sealed. */
  lemma StoppedCallPerRow(s: State, remote: seq<RemoteVault>, me: nat, t: State, n: nat, x: RowId)
    requires n < |remote| && StoppedAt(s, remote, me, t, n) && Distinct(remote) && Shown(s, x).Some?
    ensures Shown(t, x) ==
      if (exists i :: 0 <= i < n && Stranded(s, remote[i], me, x)) || LeftBehind(s, remote[n], me, t, x) then None
      else Shown(s, x)
  {
    if s.rows[x].vault == remote[n].id {
      forall i | 0 <= i < n
        ensures !Stranded(s, remote[i], me, x)
      {
        assert remote[i].id != remote[n].id;
      }
      StoppedVaultRow(s, remote, me, t, n, x);
    } else {
      StoppedOtherRow(s, remote, me, t, n, x);
    }
  }

  // ----- inputs that cost a plaintext -----

  /** One team vault held as `(h, 1)`, and an entry that rotates it to `(k, 2)`. */
  function HeldAtOne(h: Key, rows: map<RowId, Row>): State {
    State(map[1 := LocalVault(Team, "t", Some(h), 1, false, false)], rows)
  }

  function RotatesToTwo(k: Key, me: nat): RemoteVault {
    RemoteVault(1, false, "t", 2, Some(BoxFor(me, k, Anonymous)), false, false)
  }

  /** A row labelled with the version to come, but sealed under the old key, is
      readable before the call and unreadable after it. */
  lemma MislabelledRowIsLost(h: Key, k: Key, me: nat, text: string)
    requires h != k
    ensures
      var s := HeldAtOne(h, map[7 := Row(1, "host", false, 2, Sealed(h, "host", 7, text), false)]);
      var list := [RotatesToTwo(k, me)];
      && Stranded(s, list[0], me, 7) && NothingFails(s, list, me)
      && Shown(s, 7) == Some(text) && Shown(Adopted(s, list, me), 7) == None
  {
    var s := HeldAtOne(h, map[7 := Row(1, "host", false, 2, Sealed(h, "host", 7, text), false)]);
    var list := [RotatesToTwo(k, me)];
    assert list[..0] == [] && list[..1][..0] == [];
    assert AdoptAll(s, s.vaults, list, me) == AdoptOne(AdoptAll(s, s.vaults, list[..0], me), s.vaults, list[0], me);
    assert IsListed(list, 1);
  }

  /** A row that is not base64 stops the call with the new key in place: a row
      not reached by then is unreadable, and the same list does not bring it back. */
  lemma BrokenRowStrandsOthers(h: Key, k: Key, me: nat, text: string)
    requires h != k
    ensures
      var rows := map[7 := Row(1, "host", false, 1, NotBase64, false),
        8 := Row(1, "host", false, 1, Sealed(h, "host", 8, text), false)];
      var s, list := HeldAtOne(h, rows), [RotatesToTwo(k, me)];
      var t := State(AdoptOne(s, s.vaults, list[0], me).vaults, rows);
      && Applied(s, list, me, t, false) && Shown(s, 8) == Some(text) && Shown(t, 8) == None
      && !AdoptFails(t, t.vaults, list[0], me) && Shown(AdoptOne(t, t.vaults, list[0], me), 8) == None
  {
    var rows := map[7 := Row(1, "host", false, 1, NotBase64, false),
      8 := Row(1, "host", false, 1, Sealed(h, "host", 8, text), false)];
    var s, list := HeldAtOne(h, rows), [RotatesToTwo(k, me)];
    var t := State(AdoptOne(s, s.vaults, list[0], me).vaults, rows);
    assert list[..0] == [];
    assert Due(rows[7], 1, 2) && rows[7].data.NotBase64?;
    assert StoppedAt(s, list, me, t, 0);
    RetryDoesNotReseal(s, list[0], me, t, 8);
  }
}
