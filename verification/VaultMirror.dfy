/** The decrypted mirror of one vault, as a value, and how it relates to the
    server's log. `Bridge.VaultState` is the object that holds one. */
module VaultMirror {
  import opened Wrappers
  import opened Schema
  import opened SyncLog

  /** `data` is `None` when the row does not open under the key held now. */
  datatype Entity = Entity(kind: string, version: nat, data: Option<Payload>)

  datatype Mirror = Mirror(keyVersion: int, key: Option<Key>, cursor: nat, entities: map<Id, Entity>)
  {
    function VersionOf(id: Id): Option<nat> {
      if id in entities then Some(entities[id].version) else None
    }
  }

  function Max(a: nat, b: nat): nat { if a < b then b else a }

  /** How a row reads under a key and key version. */
  function View(e: Entry, key: Option<Key>, keyVersion: int): Entity {
    Entity(e.kind, e.version,
           if key.Some? && e.keyVersion == keyVersion then Open(key.value, e.kind, e.id, e.data) else None)
  }

  /** What a row does to a mirror. */
  function ApplyRow(m: Mirror, e: Entry): Mirror {
    var cursor := Max(m.cursor, e.seqNo);
    if e.deleted then m.(cursor := cursor, entities := m.entities - {e.id})
    else m.(cursor := cursor, entities := m.entities[e.id := View(e, m.key, m.keyVersion)])
  }

  function ApplyRows(m: Mirror, rows: seq<Entry>): Mirror {
    if rows == [] then m
    else ApplyRow(ApplyRows(m, rows[..|rows| - 1]), rows[|rows| - 1])
  }

  // ----- pages -----

  /** The table rows with `lo < seq <= hi`, in `seq` order. */
  function Survivors(log: Log, lo: nat, hi: nat): seq<Entry>
    requires hi <= |log|
  {
    if hi <= lo then []
    else Survivors(log, lo, hi - 1) + if Latest(log, hi - 1) then [log[hi - 1]] else []
  }

  // ----- agreement with the log -----

  /** What a reader that never pages would hold: every write replayed in order. */
  function Replay(log: Log, key: Option<Key>, keyVersion: int): map<Id, Entity> {
    ApplyRows(Mirror(keyVersion, key, 0, map[]), log).entities
  }

  /** `entities` is a faithful reading of `log` up to `c`: each entity is a row
      at or before `c`, and every row there that still stands is the one shown. */
  ghost predicate Faithful(entities: map<Id, Entity>, key: Option<Key>, keyVersion: int, log: Log, c: nat) {
    && c <= |log|
    && (forall id :: id in entities ==> exists i :: RowShown(entities, key, keyVersion, log, c, id, i))
    && (forall i :: 0 <= i < c && Latest(log, i) ==>
          if log[i].deleted then log[i].id !in entities
          else log[i].id in entities && entities[log[i].id] == View(log[i], key, keyVersion))
  }

  ghost predicate RowShown(
    entities: map<Id, Entity>, key: Option<Key>, keyVersion: int, log: Log, c: nat, id: Id, i: nat)
    requires id in entities && c <= |log|
  {
    i < c && log[i].id == id && !log[i].deleted && entities[id] == View(log[i], key, keyVersion)
  }

  ghost predicate Agrees(m: Mirror, log: Log) {
    Faithful(m.entities, m.key, m.keyVersion, log, m.cursor)
  }

  /** Writes by anyone leave the mirror faithful at its own cursor. */
  lemma GrowthKeepsAgreement(m: Mirror, log: Log, longer: Log)
    requires Agrees(m, log) && log <= longer
    ensures Agrees(m, longer)
  {
    forall id | id in m.entities
      ensures exists i :: RowShown(m.entities, m.key, m.keyVersion, longer, m.cursor, id, i)
    {
      var i :| RowShown(m.entities, m.key, m.keyVersion, log, m.cursor, id, i);
      assert RowShown(m.entities, m.key, m.keyVersion, longer, m.cursor, id, i);
    }
    forall i | 0 <= i < m.cursor && Latest(longer, i)
      ensures Latest(log, i)
    {
      assert forall j :: i < j < |log| ==> log[j] == longer[j];
    }
  }

  /** One step of a page: row `n` is applied if it still stands, skipped otherwise. */
  lemma RowKeepsFaithful(m: Mirror, log: Log, n: nat)
    requires n < |log| && Faithful(m.entities, m.key, m.keyVersion, log, n)
    ensures
      var after := if Latest(log, n) then ApplyRow(m, log[n]) else m;
      Faithful(after.entities, m.key, m.keyVersion, log, n + 1)
  {
    var after := if Latest(log, n) then ApplyRow(m, log[n]) else m;
    var c := n + 1;
    forall id | id in after.entities
      ensures exists i :: RowShown(after.entities, m.key, m.keyVersion, log, c, id, i)
    {
      if Latest(log, n) && id == log[n].id {
        assert RowShown(after.entities, m.key, m.keyVersion, log, c, id, n);
      } else {
        var i :| RowShown(m.entities, m.key, m.keyVersion, log, n, id, i);
        assert RowShown(after.entities, m.key, m.keyVersion, log, c, id, i);
      }
    }
    forall i | 0 <= i < n && Latest(log, i)
      ensures if log[i].deleted then log[i].id !in after.entities
              else log[i].id in after.entities && after.entities[log[i].id] == View(log[i], m.key, m.keyVersion)
    {
      assert log[n].id != log[i].id;
    }
  }

  lemma SurvivorsStep(m: Mirror, log: Log, lo: nat, hi: nat)
    requires lo <= hi < |log|
    ensures
      var before := ApplyRows(m, Survivors(log, lo, hi));
      ApplyRows(m, Survivors(log, lo, hi + 1)) == if Latest(log, hi) then ApplyRow(before, log[hi]) else before
  {
    var before, rows := Survivors(log, lo, hi), Survivors(log, lo, hi + 1);
    if Latest(log, hi) {
      assert rows == before + [log[hi]] && rows[..|rows| - 1] == before;
    } else {
      assert rows == before;
    }
  }

  /** A page never moves the cursor past its own end. */
  lemma {:induction false} PageCursor(m: Mirror, log: Log, hi: nat)
    requires forall i :: 0 <= i < |log| ==> log[i].seqNo == i + 1
    requires m.cursor <= hi <= |log|
    ensures m.cursor <= ApplyRows(m, Survivors(log, m.cursor, hi)).cursor <= hi
    decreases hi
  {
    if m.cursor < hi {
      PageCursor(m, log, hi - 1);
      SurvivorsStep(m, log, m.cursor, hi - 1);
      assert log[hi - 1].seqNo == hi;
    }
  }

  /** Taking the page that ends at `hi` moves a faithful mirror to `hi`. */
  lemma {:induction false} PageKeepsAgreement(m: Mirror, log: Log, hi: nat)
    requires Agrees(m, log) && m.cursor <= hi <= |log|
    ensures
      var after := ApplyRows(m, Survivors(log, m.cursor, hi));
      && after.key == m.key && after.keyVersion == m.keyVersion
      && Faithful(after.entities, m.key, m.keyVersion, log, hi)
    decreases hi
  {
    if m.cursor < hi {
      PageKeepsAgreement(m, log, hi - 1);
      RowKeepsFaithful(ApplyRows(m, Survivors(log, m.cursor, hi - 1)), log, hi - 1);
      SurvivorsStep(m, log, m.cursor, hi - 1);
    }
  }

  lemma {:induction false} ReplayIsFaithful(log: Log, key: Option<Key>, keyVersion: int, n: nat)
    requires n <= |log|
    ensures Faithful(Replay(log[..n], key, keyVersion), key, keyVersion, log[..n], n)
  {
    var start := Mirror(keyVersion, key, 0, map[]);
    if n == 0 {
      assert log[..0] == [];
    } else {
      ReplayIsFaithful(log, key, keyVersion, n - 1);
      assert log[..n][..n - 1] == log[..n - 1];
      ReplayKeepsKey(start, log[..n - 1]);
      var short, long := log[..n - 1], log[..n];
      var was, now := Replay(short, key, keyVersion), Replay(long, key, keyVersion);
      forall id | id in now
        ensures exists i :: RowShown(now, key, keyVersion, long, n, id, i)
      {
        if id == long[n - 1].id {
          assert RowShown(now, key, keyVersion, long, n, id, n - 1);
        } else {
          var i :| RowShown(was, key, keyVersion, short, n - 1, id, i);
          assert RowShown(now, key, keyVersion, long, n, id, i);
        }
      }
      forall i | 0 <= i < n && Latest(long, i)
        ensures if long[i].deleted then long[i].id !in now
                else long[i].id in now && now[long[i].id] == View(long[i], key, keyVersion)
      {
        if i < n - 1 {
          assert Latest(short, i) by {
            assert forall j :: i < j < |short| ==> short[j] == long[j];
          }
          assert long[n - 1].id != long[i].id;
        }
      }
    }
  }

  lemma ReplayKeepsKey(m: Mirror, rows: seq<Entry>)
    ensures ApplyRows(m, rows).key == m.key && ApplyRows(m, rows).keyVersion == m.keyVersion
  {
  }

  /** Two faithful readings of a whole log are the same map. */
  lemma FaithfulAtHeadIsUnique(a: map<Id, Entity>, b: map<Id, Entity>, key: Option<Key>, keyVersion: int, log: Log)
    requires Faithful(a, key, keyVersion, log, |log|) && Faithful(b, key, keyVersion, log, |log|)
    ensures a == b
  {
    forall id
      ensures id in a <==> id in b
      ensures id in a && id in b ==> a[id] == b[id]
    {
      var e := Current(log, id);
      if e.Some? {
        var i :| 0 <= i < |log| && log[i] == e.value && e.value.id == id && Latest(log, i);
      }
    }
    assert a.Keys == b.Keys;
  }

  /** At the head the mirror is exactly the replay of the server's log under
      the key and key version it holds, however it was paged there. */
  lemma MirrorAtHeadIsReplay(m: Mirror, log: Log)
    requires Agrees(m, log) && m.cursor == |log|
    ensures m.entities == Replay(log, m.key, m.keyVersion)
  {
    ReplayIsFaithful(log, m.key, m.keyVersion, |log|);
    assert log[..|log|] == log;
    FaithfulAtHeadIsUnique(m.entities, Replay(log, m.key, m.keyVersion), m.key, m.keyVersion, log);
  }

  // ----- writing against the mirror -----

  /** The item was prepared from `seen`: its base is the version shown there. */
  predicate PreparedFrom(seen: Mirror, item: Item) {
    match item
    case Put(c) => c.base == seen.VersionOf(c.id)
    case Drop(id, base) => Some(base) == seen.VersionOf(id)
  }

  /** What an accepted item replaced is what its writer was looking at. */
  ghost predicate ReplacesWhatWasSeen(seen: Mirror, log: Log, item: Item) {
    match item
    case Put(c) => (
      match Current(log, c.id)
      case None => c.id !in seen.entities
      case Some(e) =>
        !e.deleted && c.id in seen.entities && seen.entities[c.id] == View(e, seen.key, seen.keyVersion))
    case Drop(id, _) =>
      match Current(log, id)
      case None => false
      case Some(e) =>
        e.deleted || (id in seen.entities && seen.entities[id] == View(e, seen.key, seen.keyVersion))
  }

  /** The rows the server held when it came to item `k` of a push. */
  function LogAt(before: Log, gate: Gate, items: seq<Item>, k: nat): Log
    requires k <= |items|
  {
    PushItems(before, gate, items[..k]).0
  }

  lemma ShownRow(m: Mirror, log: Log, id: Id) returns (i: nat)
    requires Agrees(m, log) && id in m.entities
    ensures RowShown(m.entities, m.key, m.keyVersion, log, m.cursor, id, i)
  {
    i :| RowShown(m.entities, m.key, m.keyVersion, log, m.cursor, id, i);
  }

  /** A matching version pins the row: it is the very row the mirror showed. */
  lemma SeenVersionIsSeenRow(seen: Mirror, pulled: Log, log: Log, e: Entry)
    requires Agrees(seen, pulled) && pulled <= log && LogOk(log)
    requires Current(log, e.id) == Some(e) && seen.VersionOf(e.id) == Some(e.version)
    ensures !e.deleted && seen.entities[e.id] == View(e, seen.key, seen.keyVersion)
  {
    var i := ShownRow(seen, pulled, e.id);
    assert log[i] == pulled[i];
    assert log[i].id == e.id && log[i].version == e.version;
    VersionNamesCurrent(log, i, e);
  }

  lemma OutcomeAt(before: Log, gate: Gate, items: seq<Item>, k: nat)
    requires k < |items|
    ensures PushItems(before, gate, items).1[k] == PushItem(LogAt(before, gate, items, k), gate, items[k]).1
    decreases |items|
  {
    var init := items[..|items| - 1];
    if k < |items| - 1 {
      OutcomeAt(before, gate, init, k);
      assert init[..k] == items[..k];
    }
  }

  /** No lost update. Whatever other writers did between the pull and the push,
      every accepted item replaced exactly the row its plan was built from. */
  lemma AcceptedItemsLoseNothing(seen: Mirror, pulled: Log, before: Log, gate: Gate, items: seq<Item>, k: nat)
    requires Agrees(seen, pulled) && pulled <= before && LogOk(before)
    requires k < |items| && PreparedFrom(seen, items[k])
    requires PushItems(before, gate, items).1[k] == Accepted
    ensures ReplacesWhatWasSeen(seen, LogAt(before, gate, items, k), items[k])
  {
    var log := LogAt(before, gate, items, k);
    OutcomeAt(before, gate, items, k);
    PushGrowsLog(before, gate, items[..k]);
    assert pulled <= log;
    var id := match items[k] case Put(c) => c.id case Drop(d, _) => d;
    match Current(log, id)
    case Some(e) =>
      if seen.VersionOf(id) == Some(e.version) {
        SeenVersionIsSeenRow(seen, pulled, log, e);
      }
    case None =>
  }
}
