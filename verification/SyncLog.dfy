/** The sync server as the bridge sees it: one log per vault, optimistic
    concurrency on push, cursor pages on pull.

    The server keeps only the newest row of each entity, so a page after a
    cursor holds the rows that no later write has superseded, in `seq` order. */
module SyncLog {
  import opened Wrappers
  import opened Schema

  type VaultId = nat

  datatype Key = Key(bytes: nat)

  /** An AEAD envelope: it opens only under its own key, kind and id. */
  datatype Cipher =
    | Sealed(key: Key, kind: string, id: Id, plain: Payload)
    | Junk

  datatype Entry = Entry(
    seqNo: nat,
    id: Id,
    kind: string,
    version: nat,
    deleted: bool,
    keyVersion: int,
    data: Cipher)

  type Log = seq<Entry>

  /** What a writer asks for; the server adds `version` and `seq`. */
  datatype Write = Write(id: Id, kind: string, deleted: bool, keyVersion: int, data: Cipher)

  function Open(key: Key, kind: string, id: Id, data: Cipher): Option<Payload> {
    if data.Sealed? && data.key == key && data.kind == kind && data.id == id then Some(data.plain) else None
  }

  // ----- rows and versions -----

  /** Row `i` has not been superseded: it is the row the server's table holds. */
  predicate Latest(log: Log, i: nat)
    requires i < |log|
  {
    forall j :: i < j < |log| ==> log[j].id != log[i].id
  }

  /** The table row of `id`, if it was ever written. */
  function Current(log: Log, id: Id): (e: Option<Entry>)
    ensures e.None? <==> forall i :: 0 <= i < |log| ==> log[i].id != id
    ensures e.Some? ==> exists i :: 0 <= i < |log| && log[i] == e.value && e.value.id == id && Latest(log, i)
  {
    if log == [] then None
    else
      var n := |log| - 1;
      if log[n].id == id then Some(log[n])
      else
        var before := Current(log[..n], id);
        assert before.Some? ==>
          exists i :: 0 <= i < n && log[i] == before.value && Latest(log[..n], i) && Latest(log, i);
        before
  }

  function Append(log: Log, w: Write): Log {
    var version := match Current(log, w.id) case Some(e) => e.version + 1 case None => 1;
    log + [Entry(|log| + 1, w.id, w.kind, version, w.deleted, w.keyVersion, w.data)]
  }

  lemma CurrentOfAppend(log: Log, w: Write, id: Id)
    ensures |Append(log, w)| == |log| + 1 && Append(log, w)[|log|].id == w.id
    ensures Append(log, w)[|log|].deleted == w.deleted && Append(log, w)[..|log|] == log
    ensures Current(Append(log, w), id) == if w.id == id then Some(Append(log, w)[|log|]) else Current(log, id)
  {
  }

  /** `seq` counts the writes of the vault and versions of one id only grow. */
  ghost predicate LogOk(log: Log) {
    && (forall i :: 0 <= i < |log| ==> log[i].seqNo == i + 1)
    && (forall i, j :: 0 <= i < j < |log| && log[i].id == log[j].id ==> log[i].version < log[j].version)
  }

  lemma AppendKeepsLogOk(log: Log, w: Write)
    requires LogOk(log)
    ensures LogOk(Append(log, w)) && log <= Append(log, w)
  {
    var after := Append(log, w);
    forall i | 0 <= i < |log| && log[i].id == w.id
      ensures log[i].version < after[|log|].version
    {
      var e := Current(log, w.id).value;
      var k :| 0 <= k < |log| && log[k] == e && Latest(log, k);
    }
  }

  /** A version names one row of an id for ever. */
  lemma VersionNamesRow(log: Log, i: nat, j: nat)
    requires LogOk(log) && i < |log| && j < |log|
    requires log[i].id == log[j].id && log[i].version == log[j].version
    ensures i == j
  {
  }

  lemma VersionNamesCurrent(log: Log, i: nat, e: Entry)
    requires LogOk(log) && i < |log|
    requires Current(log, e.id) == Some(e) && log[i].id == e.id && log[i].version == e.version
    ensures log[i] == e
  {
    var k :| 0 <= k < |log| && log[k] == e && Latest(log, k);
    VersionNamesRow(log, i, k);
  }

  // ----- push -----

  datatype Change = Change(id: Id, kind: string, base: Option<nat>, keyVersion: int, data: Cipher)

  datatype Item =
    | Put(change: Change)
    | Drop(id: Id, base: nat)

  datatype Outcome = Accepted | Conflict | Rejected

  /** What the server holds against an item besides its version: the vault's
      key version, and ids it refuses (not allowed, too large, unknown kind). */
  datatype Gate = Gate(keyVersion: int, refused: set<Id>)

  function PushItem(log: Log, gate: Gate, item: Item): (Log, Outcome) {
    match item
    case Put(c) =>
      if c.keyVersion != gate.keyVersion || c.id in gate.refused then (log, Rejected)
      else (
        var written := Append(log, Write(c.id, c.kind, false, c.keyVersion, c.data));
        match Current(log, c.id)
        case Some(e) => if c.base == Some(e.version) then (written, Accepted) else (log, Conflict)
        case None => if c.base.None? then (written, Accepted) else (log, Rejected))
    case Drop(id, base) =>
      match Current(log, id)
      case None => (log, Rejected)
      case Some(e) =>
        if id in gate.refused then (log, Rejected)
        else if e.deleted then (log, Accepted)
        else if e.version != base then (log, Conflict)
        else (Append(log, Write(id, e.kind, true, e.keyVersion, Junk)), Accepted)
  }

  /** The version of an entity, if it was ever written. */
  function VersionIn(log: Log, id: Id): Option<nat> {
    match Current(log, id) case Some(e) => Some(e.version) case None => None
  }

  function ItemId(item: Item): Id { match item case Put(c) => c.id case Drop(id, _) => id }

  /** The row an accepted item leaves on top. */
  function WriteOf(log: Log, item: Item): Write {
    match item
    case Put(c) => Write(c.id, c.kind, false, c.keyVersion, c.data)
    case Drop(id, _) =>
      match Current(log, id)
      case Some(e) => Write(id, e.kind, true, e.keyVersion, Junk)
      case None => Write(id, "", true, 0, Junk)
  }

  /** What the server asks of an item: a change names the vault's key version
      and the version it was based on, a delete that version or an id already deleted. */
  predicate Acceptable(log: Log, gate: Gate, item: Item) {
    match item
    case Put(c) => c.keyVersion == gate.keyVersion && c.id !in gate.refused && c.base == VersionIn(log, c.id)
    case Drop(id, base) =>
      && id !in gate.refused && Current(log, id).Some?
      && (Current(log, id).value.deleted || VersionIn(log, id) == Some(base))
  }

  /** The item was planned on another version of its entity. */
  predicate Stale(log: Log, gate: Gate, item: Item) {
    && ItemId(item) !in gate.refused && (item.Put? ==> item.change.keyVersion == gate.keyVersion)
    && Current(log, ItemId(item)).Some? && !Acceptable(log, gate, item)
  }

  lemma PushItemAppends(log: Log, gate: Gate, item: Item)
    ensures PushItem(log, gate, item).1 == Accepted <==> Acceptable(log, gate, item)
    ensures PushItem(log, gate, item).1 == Conflict <==> Stale(log, gate, item)
    ensures PushItem(log, gate, item).0 == log || PushItem(log, gate, item).0 == Append(log, WriteOf(log, item))
    ensures PushItem(log, gate, item).1 != Accepted ==> PushItem(log, gate, item).0 == log
    ensures PushItem(log, gate, item).1 == Accepted && PushItem(log, gate, item).0 == log ==>
              item.Drop? && Current(log, item.id).Some? && Current(log, item.id).value.deleted
  {
    hide Append, Current, Latest;
    CurrentOfAppend(log, WriteOf(log, item), ItemId(item));
  }

  /** The entity as an accepted item leaves it: written with its data, one
      version on, or deleted. */
  ghost predicate Holds(after: Log, item: Item) {
    var e := Current(after, ItemId(item));
    match item
    case Put(c) =>
      && e.Some? && !e.value.deleted && e.value.data == c.data && e.value.keyVersion == c.keyVersion
      && e.value.version == (if c.base.Some? then c.base.value + 1 else 1)
    case Drop(id, _) => e.Some? && e.value.deleted
  }

  lemma AppendHolds(log: Log, item: Item)
    requires item.Put? ==> item.change.base == VersionIn(log, item.change.id)
    ensures Holds(Append(log, WriteOf(log, item)), item)
  {
    CurrentOfAppend(log, WriteOf(log, item), ItemId(item));
  }

  /** Exactly when an item is accepted or clashes, and what it leaves: a change sits on
      top of the version it was based on, a delete leaves its id deleted, no
      other entity's row changes, and an item not accepted changes nothing. */
  lemma PushItemExactly(log: Log, gate: Gate, item: Item, x: Id)
    ensures
      var (after, outcome) := PushItem(log, gate, item);
      && (outcome == Accepted <==> Acceptable(log, gate, item)) && (outcome == Conflict <==> Stale(log, gate, item))
      && (outcome == Accepted ==> Holds(after, item))
      && (outcome != Accepted ==> after == log)
      && (x != ItemId(item) ==> Current(after, x) == Current(log, x))
  {
    hide Append, Current, Latest, PushItem;
    PushItemAppends(log, gate, item);
    if Acceptable(log, gate, item) { AppendHolds(log, item); }
    CurrentOfAppend(log, WriteOf(log, item), x);
  }

  /** One push: its items in order, each against the rows its predecessors left. */
  function PushItems(log: Log, gate: Gate, items: seq<Item>): (r: (Log, seq<Outcome>))
    ensures |r.1| == |items|
  {
    if items == [] then (log, [])
    else
      var (before, outcomes) := PushItems(log, gate, items[..|items| - 1]);
      var (after, outcome) := PushItem(before, gate, items[|items| - 1]);
      (after, outcomes + [outcome])
  }

  lemma {:induction false} PushGrowsLog(log: Log, gate: Gate, items: seq<Item>)
    requires LogOk(log)
    ensures LogOk(PushItems(log, gate, items).0) && log <= PushItems(log, gate, items).0
  {
    if items != [] {
      var rest := items[..|items| - 1];
      PushGrowsLog(log, gate, rest);
      var before := PushItems(log, gate, rest).0;
      match items[|items| - 1]
      case Put(c) => AppendKeepsLogOk(before, Write(c.id, c.kind, false, c.keyVersion, c.data));
      case Drop(id, _) =>
        var e := Current(before, id);
        if e.Some? {
          AppendKeepsLogOk(before, Write(id, e.value.kind, true, e.value.keyVersion, Junk));
        }
    }
  }
}
