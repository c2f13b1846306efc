/** What a finished vault-list call leaves behind and answers, said from the
    list and from what was held before it. */
module VaultAdoption {
  import opened Wrappers
  import opened VaultKeys
  import opened VaultKeyRuns

  /** The envelope is addressed to us. */
  predicate Opens(v: RemoteVault, me: nat) {
    v.sealedKey.Some? && v.sealedKey.value.BoxFor? && v.sealedKey.value.owner == me
  }

  predicate HasKey(s: State, id: VaultId) {
    id in s.vaults && s.vaults[id].key.Some?
  }

  /** A key is held and entry `v` may replace it: its envelope opens, its version
      is higher, and for a personal vault only we can have made the envelope. */
  predicate Replaces(s: State, v: RemoteVault, me: nat) {
    && HasKey(s, v.id) && Opens(v, me) && s.vaults[v.id].keyVersion < v.keyVersion
    && (v.personal ==> v.sealedKey.value.origin == SelfAuthenticated)
  }

  /** What becomes of the vault that entry `v` lists. */
  predicate VaultFollows(s: State, v: RemoteVault, me: nat, now: LocalVault) {
    && now.kind == (if v.personal then Personal else Team)
    && now.name == v.name && now.logging == v.logging && now.isDefault == v.isDefault
    && (if HasKey(s, v.id) && !Replaces(s, v, me)
        then now.key == s.vaults[v.id].key && now.keyVersion == s.vaults[v.id].keyVersion
        else now.keyVersion == v.keyVersion && (if Opens(v, me) then now.key == Some(v.sealedKey.value.key)
                                               else now.key == None))
  }

  lemma EntryFollows(s: State, v: RemoteVault, me: nat)
    ensures var after := AdoptOne(s, s.vaults, v, me).vaults; v.id in after && VaultFollows(s, v, me, after[v.id])
  {
  }

  /** Each listed vault is there afterwards. One that had no key holds exactly
      the key its envelope opens to, at the listed version; a held key is
      replaced exactly by a higher version whose envelope opens, and, when the
      vault is personal, only we can have made. Otherwise key and version stay. */
  lemma ListedVaultAfter(s: State, remote: seq<RemoteVault>, me: nat, t: State, k: nat)
    requires Applied(s, remote, me, t, true) && Distinct(remote) && k < |remote|
    ensures remote[k].id in t.vaults && VaultFollows(s, remote[k], me, t.vaults[remote[k].id])
  {
    ListedVault(s, remote, me, k);
    EntryFollows(s, remote[k], me);
    assert IsListed(remote, remote[k].id);
  }

  /** What is not listed is as it was if it is only kept here, and gone otherwise. */
  lemma UnlistedVaultAfter(s: State, remote: seq<RemoteVault>, me: nat, t: State, id: VaultId)
    requires Applied(s, remote, me, t, true) && !IsListed(remote, id)
    ensures id in t.vaults <==> id in s.vaults && s.vaults[id].kind == Local
    ensures id in t.vaults ==> t.vaults[id] == s.vaults[id]
  {
    UnlistedVault(s, remote, me, id);
  }

  // ----- rows -----

  /** Live row `x` reads as `plain` under the key held for its vault and carries another version than `v`. */
  predicate ToMove(s: State, v: RemoteVault, x: RowId, plain: string)
    requires x in s.rows && HasKey(s, v.id)
  {
    var r := s.rows[x];
    !r.deleted && r.keyVersion != v.keyVersion && r.data == Sealed(s.vaults[v.id].key.value, r.kind, x, plain)
  }

  /** It now reads as `plain` under the key `v` brought, and carries its version. */
  predicate MovedAs(s: State, v: RemoteVault, x: RowId, plain: string, now: Row)
    requires x in s.rows && HasKey(s, v.id) && v.sealedKey.Some? && v.sealedKey.value.BoxFor?
  {
    var r := s.rows[x];
    && ToMove(s, v, x, plain)
    && now == Row(r.vault, r.kind, false, v.keyVersion, Sealed(v.sealedKey.value.key, r.kind, x, plain), true)
  }

  /** What becomes of a row of the vault that entry `v` lists. */
  ghost predicate RowFollows(s: State, v: RemoteVault, me: nat, x: RowId, now: Row)
    requires x in s.rows
  {
    if Replaces(s, v, me) && exists plain :: ToMove(s, v, x, plain)
    then exists plain :: MovedAs(s, v, x, plain, now)
    else now == s.rows[x]
  }

  lemma EntryMovesRow(s: State, v: RemoteVault, me: nat, x: RowId)
    requires x in s.rows && s.rows[x].vault == v.id
    ensures var after := AdoptOne(s, s.vaults, v, me).rows; x in after && RowFollows(s, v, me, x, after[x])
  {
    if Replaces(s, v, me) && s.rows[x].data.Sealed? {
      var plain := s.rows[x].data.plain;
      if ToMove(s, v, x, plain) {
        assert Reads(s.vaults[v.id].key.value, x, s.rows[x]) == Some(plain);
        assert MovedAs(s, v, x, plain, AdoptOne(s, s.vaults, v, me).rows[x]);
      }
    }
  }

  /** Row by row: where the key was replaced, exactly the live rows that read
      under the old key and carry another version now read the same under the
      new one; every other row of a listed vault is untouched. */
  lemma ListedRowAfter(s: State, remote: seq<RemoteVault>, me: nat, t: State, k: nat, x: RowId)
    requires Applied(s, remote, me, t, true) && Distinct(remote) && k < |remote|
    requires x in s.rows && s.rows[x].vault == remote[k].id
    ensures x in t.rows && RowFollows(s, remote[k], me, x, t.rows[x])
  {
    RowsAfter(s, remote, me, x);
    ListedRow(s, remote, me, x, k);
    EntryMovesRow(s, remote[k], me, x);
    assert IsListed(remote, remote[k].id);
  }

  // ----- the answer -----

  /** The listed vaults, personal or not, that hold a key, in the order of the list. */
  function Holding(t: State, remote: seq<RemoteVault>, personal: bool): seq<VaultId> {
    if remote == [] then []
    else
      var v := remote[|remote| - 1];
      Holding(t, remote[..|remote| - 1], personal) + if v.personal == personal && HasKey(t, v.id) then [v.id] else []
  }

  /** Our personal vault holds a key at the listed version, and anyone could have made its envelope. */
  predicate ToReseal(t: State, v: RemoteVault, me: nat) {
    && v.personal && HasKey(t, v.id) && t.vaults[v.id].keyVersion == v.keyVersion
    && Opens(v, me) && v.sealedKey.value.origin == Anonymous
  }

  function Resealing(t: State, remote: seq<RemoteVault>, me: nat): seq<(VaultId, int)> {
    if remote == [] then []
    else
      var v := remote[|remote| - 1];
      Resealing(t, remote[..|remote| - 1], me) + if ToReseal(t, v, me) then [(v.id, v.keyVersion)] else []
  }

  lemma EntryAnswers(s: State, remote: seq<RemoteVault>, me: nat, t: State, k: nat)
    requires Applied(s, remote, me, t, true) && Distinct(remote) && k < |remote|
    ensures
      var before := AdoptAll(s, s.vaults, remote[..k], me);
      && (Unlocks(before, s.vaults, remote[k], me) <==> HasKey(t, remote[k].id))
      && (WantsReseal(before, s.vaults, remote[k], me) <==> ToReseal(t, remote[k], me))
  {
    SameDecision(s, remote, me, k);
    ListedVault(s, remote, me, k);
    assert IsListed(remote, remote[k].id);
  }

  lemma {:induction false} PrefixAnswers(s: State, remote: seq<RemoteVault>, me: nat, t: State, n: nat)
    requires Applied(s, remote, me, t, true) && Distinct(remote) && n <= |remote|
    ensures UnlockedIn(s, s.vaults, remote[..n], me, true) == Holding(t, remote[..n], true)
    ensures UnlockedIn(s, s.vaults, remote[..n], me, false) == Holding(t, remote[..n], false)
    ensures ResealIn(s, s.vaults, remote[..n], me) == Resealing(t, remote[..n], me)
  {
    hide Applied, AdoptAll, Unlocks, WantsReseal, HasKey, ToReseal;
    if n > 0 {
      PrefixAnswers(s, remote, me, t, n - 1);
      OneMoreListed(s, s.vaults, remote, me, n - 1);
      EntryAnswers(s, remote, me, t, n - 1);
      assert remote[..n][..n - 1] == remote[..n - 1];
    }
  }

  lemma {:induction false} HoldingIs(t: State, remote: seq<RemoteVault>, personal: bool, id: VaultId)
    ensures id in Holding(t, remote, personal) <==>
      HasKey(t, id) && exists v :: v in remote && v.id == id && v.personal == personal
  {
    hide HasKey;
    if remote != [] {
      var n := |remote| - 1;
      HoldingIs(t, remote[..n], personal, id);
      assert remote == remote[..n] + [remote[n]];
    }
  }

  lemma {:induction false} ResealingIs(t: State, remote: seq<RemoteVault>, me: nat, id: VaultId, version: int)
    ensures (id, version) in Resealing(t, remote, me) <==>
      exists v :: v in remote && v.id == id && v.keyVersion == version && ToReseal(t, v, me)
  {
    hide ToReseal;
    if remote != [] {
      var n := |remote| - 1;
      ResealingIs(t, remote[..n], me, id, version);
      assert remote == remote[..n] + [remote[n]];
    }
  }

  /** A finished call answers the listed vaults that now hold a key, personal
      ones first, and asks to re-seal exactly the personal ones at the listed
      version whose envelope anyone could have made. */
  lemma AnswerIs(s: State, remote: seq<RemoteVault>, me: nat, t: State)
    requires Applied(s, remote, me, t, true) && Distinct(remote)
    ensures Answer(s, remote, me) ==
      (Holding(t, remote, true) + Holding(t, remote, false), Resealing(t, remote, me))
    ensures forall id :: id in Answer(s, remote, me).0 <==> IsListed(remote, id) && HasKey(t, id)
    ensures forall id, version :: (id, version) in Answer(s, remote, me).1 <==>
      exists v :: v in remote && v.id == id && v.keyVersion == version && ToReseal(t, v, me)
  {
    hide Applied, HasKey, ToReseal;
    PrefixAnswers(s, remote, me, t, |remote|);
    assert remote[..|remote|] == remote;
    forall id: VaultId
      ensures id in Answer(s, remote, me).0 <==> IsListed(remote, id) && HasKey(t, id)
    {
      HoldingIs(t, remote, true, id);
      HoldingIs(t, remote, false, id);
      if IsListed(remote, id) {
        var k :| 0 <= k < |remote| && remote[k].id == id;
        assert remote[k] in remote;
      }
    }
    forall id: VaultId, version: int
      ensures (id, version) in Answer(s, remote, me).1 <==>
        exists v :: v in remote && v.id == id && v.keyVersion == version && ToReseal(t, v, me)
    {
      ResealingIs(t, remote, me, id, version);
    }
  }
}
