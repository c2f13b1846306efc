/** The bridge runtime: it mirrors the vaults sealed to it, drops a mirror when
    its key changes, pulls pages to the head and pushes plans with optimistic
    concurrency. */
module Bridge {
  import opened Wrappers
  import opened Schema
  import opened SyncLog
  import opened VaultMirror
  import opened SyncServer
  import opened Plans
  import PP = PagedPull

  const PUSH_ATTEMPTS: nat := 3

  datatype BridgeError =
    | NotFound(what: string)
    | ReadOnly
    | Unplannable(why: PlanError)
    | Pending
    | Refused
    | TooManyConflicts

  function OpenSealed(keyPair: nat, sealedKey: Option<SealedKey>): Option<Key> {
    match sealedKey
    case Some(SealedTo(owner, key)) => if owner == keyPair then Some(key) else None
    case _ => None
  }

  /** What reconciling does to a mirror: keep it, or start over under the new key. */
  function Rekeyed(m: Mirror, keyVersion: int, key: Option<Key>): Mirror {
    if m.keyVersion != keyVersion || m.key != key then Mirror(keyVersion, key, 0, map[]) else m
  }

  /** The item that carries one change of a plan, prepared from mirror `m`. */
  function ItemFor(m: Mirror, key: Key, change: (Id, Payload)): Item {
    var (id, data) := change;
    Item.Put(Change(id, data.Kind(), m.VersionOf(id), m.keyVersion, Sealed(key, data.Kind(), id, data)))
  }

  function ChangeItems(m: Mirror, key: Key, changes: seq<(Id, Payload)>): (items: seq<Item>)
    ensures |items| == |changes| && forall k :: 0 <= k < |items| ==> items[k] == ItemFor(m, key, changes[k])
  {
    seq(|changes|, k requires 0 <= k < |changes| => ItemFor(m, key, changes[k]))
  }

  /** Ids the mirror does not know are not sent: there is no version to base them on. */
  function DropItems(m: Mirror, deletes: seq<Id>): (items: seq<Item>)
    ensures forall k :: 0 <= k < |items| ==> items[k].Drop? && PreparedFrom(m, items[k])
  {
    if deletes == [] then []
    else
      DropItems(m, deletes[..|deletes| - 1]) +
      match m.VersionOf(deletes[|deletes| - 1])
      case Some(base) => [Drop(deletes[|deletes| - 1], base)]
      case None => []
  }

  /** What a plan sends when it is built on `m`: its changes, then its deletes. */
  function SealedItems(m: Mirror, plan: Plan): Result<seq<Item>, BridgeError> {
    if plan.changes == [] then Ok(DropItems(m, plan.deletes))
    else
      match m.key
      case None => Err(Pending)
      case Some(key) => Ok(ChangeItems(m, key, plan.changes) + DropItems(m, plan.deletes))
  }

  class VaultState {
    const id: VaultId
    var name: string
    var writable: bool
    var keyVersion: int
    var key: Option<Key>
    var cursor: nat
    var entities: map<Id, Entity>

    function Held(): Mirror
      reads this
    {
      Mirror(keyVersion, key, cursor, entities)
    }

    constructor (id: VaultId, name: string, writable: bool, keyVersion: int)
      ensures this.id == id && Held() == Mirror(keyVersion, None, 0, map[])
      ensures this.name == name && this.writable == writable
    {
      this.id, this.name, this.writable, this.keyVersion := id, name, writable, keyVersion;
      key, cursor, entities := None, 0, map[];
    }

    predicate Ready()
      reads this
    {
      key.Some?
    }

    /** Take in a row of an answer. */
    method Apply(e: Entry)
      modifies this`cursor, this`entities
      ensures Held() == ApplyRow(old(Held()), e)
    {
      cursor := Max(cursor, e.seqNo);
      if e.deleted {
        entities := entities - {e.id};
        return;
      }
      var data := None;
      if key.Some? && e.keyVersion == keyVersion {
        data := Open(key.value, e.kind, e.id, e.data);
      }
      entities := entities[e.id := Entity(e.kind, e.version, data)];
    }

    /** Forget everything pulled so far. */
    method Reset()
      modifies this`cursor, this`entities
      ensures cursor == 0 && entities == map[]
    {
      cursor, entities := 0, map[];
    }

    method Advance(to: nat)
      modifies this`cursor
      ensures Held() == old(Held()).(cursor := Max(old(cursor), to))
    {
      cursor := Max(cursor, to);
    }

    /** Take the listed name, role and key; a moved key starts the mirror over. */
    method Rekey(bv: BridgeVault, newKey: Option<Key>)
      modifies this
      ensures Held() == Rekeyed(old(Held()), bv.keyVersion, newKey)
      ensures name == bv.name && writable == bv.writable
    {
      name, writable := bv.name, bv.writable;
      if keyVersion != bv.keyVersion || key != newKey {
        Reset();
      }
      keyVersion, key := bv.keyVersion, newKey;
    }

    /** Seal `data` as a change based on the version held here. */
    method Change(id: Id, data: Payload) returns (r: Result<Item, BridgeError>)
      ensures r == if key.Some? then Ok(ItemFor(Held(), key.value, (id, data))) else Err(Pending)
    {
      match key
      case None => r := Err(Pending);
      case Some(k) =>
        var base := if id in entities then Some(entities[id].version) else None;
        r := Ok(Item.Put(SyncLog.Change(id, data.Kind(), base, keyVersion, Sealed(k, data.Kind(), id, data))));
    }
  }

  // ----- reconciling with the list of vaults -----

  predicate IsListed(v: VaultId, me: seq<BridgeVault>) { exists k :: 0 <= k < |me| && me[k].id == v }

  /** Mirrors of vaults no longer listed are dropped. */
  function Listed(held: map<VaultId, Mirror>, me: seq<BridgeVault>): map<VaultId, Mirror> {
    map v | v in held && IsListed(v, me) :: held[v]
  }

  /** A vault seen for the first time: locked and empty. */
  function NewMirror(bv: BridgeVault): Mirror { Mirror(bv.keyVersion, None, 0, map[]) }

  function Adopted(held: map<VaultId, Mirror>, bv: BridgeVault, keyPair: nat): map<VaultId, Mirror> {
    var m := if bv.id in held then held[bv.id] else NewMirror(bv);
    held[bv.id := Rekeyed(m, bv.keyVersion, OpenSealed(keyPair, bv.sealedKey))]
  }

  /** Whether vault `v` may be written, once the lines of a list have said so. */
  function RoleTold(me: seq<BridgeVault>, v: VaultId, was: Option<bool>): Option<bool> {
    if me == [] then was
    else if me[|me| - 1].id == v then Some(me[|me| - 1].writable)
    else RoleTold(me[..|me| - 1], v, was)
  }

  function Relist(held: map<VaultId, Mirror>, me: seq<BridgeVault>, keyPair: nat): map<VaultId, Mirror> {
    if me == [] then held else Adopted(Relist(held, me[..|me| - 1], keyPair), me[|me| - 1], keyPair)
  }

  /** A mirror that may be held: some pages led to it, it agrees with the log,
      and nothing is kept without a key. */
  ghost predicate MirrorOk(m: Mirror, log: Log) {
    && Agrees(m, log) && PP.Reached(m, log)
    && (m.key.None? ==> m.cursor == 0 && m.entities == map[])
  }

  ghost predicate AllMirrorsOk(held: map<VaultId, Mirror>, logs: Logs) {
    forall v :: v in held ==> MirrorOk(held[v], LogIn(logs, v))
  }

  /** Whatever list the server sends, adopting it leaves every mirror sound. */
  lemma {:induction false} RelistKeepsMirrors(
    held: map<VaultId, Mirror>, me: seq<BridgeVault>, keyPair: nat, logs: Logs)
    requires AllMirrorsOk(held, logs)
    ensures AllMirrorsOk(Relist(held, me, keyPair), logs)
  {
    if me != [] {
      var before, bv := Relist(held, me[..|me| - 1], keyPair), me[|me| - 1];
      RelistKeepsMirrors(held, me[..|me| - 1], keyPair, logs);
      PP.NothingPulledIsReached(None, bv.keyVersion, LogIn(logs, bv.id));
      PP.NothingPulledIsReached(OpenSealed(keyPair, bv.sealedKey), bv.keyVersion, LogIn(logs, bv.id));
    }
  }

  lemma ListedKeepsMirrors(held: map<VaultId, Mirror>, me: seq<BridgeVault>, logs: Logs)
    requires AllMirrorsOk(held, logs)
    ensures AllMirrorsOk(Listed(held, me), logs)
  {
    hide MirrorOk;
  }

  lemma GrowthKeepsMirrors(held: map<VaultId, Mirror>, logs: Logs, longer: Logs)
    requires AllMirrorsOk(held, logs) && Grows(logs, longer)
    ensures AllMirrorsOk(held, longer)
  {
    forall v | v in held
      ensures MirrorOk(held[v], LogIn(longer, v))
    {
      GrowthKeepsAgreement(held[v], LogIn(logs, v), LogIn(longer, v));
      PP.GrowthKeepsReached(held[v], LogIn(logs, v), LogIn(longer, v));
    }
  }

  lemma HeldParts(m: Mirror, log: Log)
    requires MirrorOk(m, log)
    ensures Agrees(m, log) && m.cursor <= |log|
  {
  }

  lemma HeldAtEnd(m: Mirror, log: Log)
    requires MirrorOk(m, log) && m.cursor == |log|
    ensures m.entities == Replay(log, m.key, m.keyVersion)
  {
    MirrorAtHeadIsReplay(m, log);
  }

  /** Between pages too, exactly what a held mirror shows: the log up to its
      cursor when the rows last served are the last ones there. */
  lemma HeldIsReplayExactly(m: Mirror, log: Log) returns (pages: seq<PP.Page>)
    requires LogOk(log) && MirrorOk(m, log)
    ensures PP.LedTo(pages, m, log) && PP.Bounded(pages) && PP.EndOf(pages) == m.cursor <= |log|
    ensures m.entities == Replay(log[..m.cursor], m.key, m.keyVersion) <==>
              forall id: Id :: PP.ServedRight(pages, log[..m.cursor], id)
  {
    pages := PP.ReachedIsReplayExactly(m, log);
  }

  /** The mirrors a request can move. */
  function ReadyCursors(held: map<VaultId, Mirror>): map<VaultId, nat> {
    map v | v in held && held[v].key.Some? :: held[v].cursor
  }

  /** Pulling neither adds vaults nor touches keys, and cursors never go back. */
  ghost predicate Moved(a: map<VaultId, Mirror>, b: map<VaultId, Mirror>) {
    && a.Keys == b.Keys
    && forall v :: v in a ==> a[v].key == b[v].key && a[v].keyVersion == b[v].keyVersion && a[v].cursor <= b[v].cursor
  }

  lemma NothingMoved(held: map<VaultId, Mirror>, logs: Logs)
    ensures Moved(held, held) && Grows(logs, logs)
  {
  }

  lemma MovedHas(a: map<VaultId, Mirror>, b: map<VaultId, Mirror>, v: VaultId)
    requires Moved(a, b) && v in a
    ensures v in b
  {
  }

  lemma GrowsTransitive(a: Logs, b: Logs, c: Logs)
    requires Grows(a, b) && Grows(b, c)
    ensures Grows(a, c)
  {
  }

  lemma MovedTransitive(a: map<VaultId, Mirror>, b: map<VaultId, Mirror>, c: map<VaultId, Mirror>)
    requires Moved(a, b) && Moved(b, c)
    ensures Moved(a, c)
  {
  }

  /** Every ready vault the server serves shows the replay of its whole log. */
  ghost predicate AtHead(held: map<VaultId, Mirror>, served: set<VaultId>, logs: Logs) {
    forall v :: v in held && held[v].key.Some? && v in served ==>
      held[v].entities == Replay(LogIn(logs, v), held[v].key, held[v].keyVersion)
  }

  lemma NothingReady(held: map<VaultId, Mirror>, served: set<VaultId>, logs: Logs)
    requires ReadyCursors(held) == map[]
    ensures AtHead(held, served, logs)
  {
    assert forall v :: v in held && held[v].key.Some? ==> v in ReadyCursors(held);
  }

  /** Rows of held vaults that their mirror has not reached. */
  ghost function Unread(held: map<VaultId, Mirror>, logs: Logs): set<(VaultId, nat)> {
    set v, i: nat | v in held && held[v].cursor <= i < |LogIn(logs, v)| :: (v, i)
  }

  // ----- absorbing a pull answer -----

  function MovedTo(m: Mirror, c: nat): Mirror { m.(cursor := Max(m.cursor, c)) }

  /** Rows first, then the cursor the server hands out. */
  function Absorb(m: Mirror, v: VaultId, r: Pulled): Mirror {
    var after := ApplyRows(m, RowsOf(r.rows, v));
    if v in r.cursors then MovedTo(after, r.cursors[v]) else after
  }

  /** The rows of an answer, each applied to the vault it names. */
  function LandedRows(held: map<VaultId, Mirror>, rows: seq<Row>): (r: map<VaultId, Mirror>)
    ensures r.Keys == held.Keys
  {
    if rows == [] then held
    else
      var before, row := LandedRows(held, rows[..|rows| - 1]), rows[|rows| - 1];
      if row.vault in before then before[row.vault := ApplyRow(before[row.vault], row.entry)] else before
  }

  lemma LandedStep(held: map<VaultId, Mirror>, rows: seq<Row>, i: nat)
    requires i < |rows|
    ensures LandedRows(held, rows[..i + 1]) == LandedRows(LandedRows(held, rows[..i]), [rows[i]])
  {
    assert rows[..i + 1][..i] == rows[..i] && [rows[i]][..0] == [];
  }

  lemma {:induction false} LandedPerVault(held: map<VaultId, Mirror>, rows: seq<Row>, v: VaultId)
    requires v in held
    ensures LandedRows(held, rows)[v] == ApplyRows(held[v], RowsOf(rows, v))
  {
    if rows != [] {
      var init, row := rows[..|rows| - 1], rows[|rows| - 1];
      LandedPerVault(held, init, v);
      if row.vault == v {
        ApplyRowsAppend(held[v], RowsOf(init, v), row.entry);
      } else {
        assert RowsOf(rows, v) == RowsOf(init, v);
      }
    }
  }

  lemma ApplyRowsAppend(m: Mirror, rows: seq<Entry>, e: Entry)
    ensures ApplyRows(m, rows + [e]) == ApplyRow(ApplyRows(m, rows), e)
  {
    assert (rows + [e])[..|rows|] == rows;
  }

  lemma AbsorbKeepsMirror(m: Mirror, log: Log, v: VaultId, r: Pulled)
    requires LogOk(log) && MirrorOk(m, log) && m.key.Some?
    requires v in r.cursors && PageFor(log, r.rows, v, m.cursor, r.cursors[v])
    ensures MirrorOk(Absorb(m, v, r), log)
    ensures Absorb(m, v, r).cursor == r.cursors[v]
    ensures Absorb(m, v, r).key == m.key && Absorb(m, v, r).keyVersion == m.keyVersion
  {
    PageCursor(m, log, r.cursors[v]);
    PageKeepsAgreement(m, log, r.cursors[v]);
    PP.PageKeepsReached(m, log, r.cursors[v]);
  }

  /** What an answer does to one vault, asked about or not. */
  lemma AnswerForVault(m: Mirror, log: Log, v: VaultId, asked: map<VaultId, nat>, r: Pulled)
    requires LogOk(log) && MirrorOk(m, log) && OnlyAsked(asked, r)
    requires v in asked ==> m.key.Some? && asked[v] == m.cursor && PageFor(log, r.rows, v, m.cursor, r.cursors[v])
    ensures
      var after := Absorb(m, v, r);
      && MirrorOk(after, log) && after.key == m.key && after.keyVersion == m.keyVersion
      && after.cursor == if v in asked then r.cursors[v] else m.cursor
  {
    if v in asked {
      AbsorbKeepsMirror(m, log, v, r);
    } else {
      RowsOfAbsent(r.rows, v);
    }
  }

  /** Where an answer leaves every cursor. */
  ghost predicate Landing(
    now: map<VaultId, Mirror>, was: map<VaultId, Mirror>, asked: map<VaultId, nat>, r: Pulled)
  {
    && now.Keys == was.Keys
    && forall v :: v in now ==>
         now[v].cursor == if v in asked && v in r.cursors then r.cursors[v] else was[v].cursor
  }

  ghost predicate AbsorbedEach(now: map<VaultId, Mirror>, was: map<VaultId, Mirror>, r: Pulled) {
    now.Keys == was.Keys && forall v :: v in now ==> now[v] == Absorb(was[v], v, r)
  }

  lemma AnswerForOne(
    was: map<VaultId, Mirror>, logs: Logs, served: set<VaultId>, asked: map<VaultId, nat>, r: Pulled, v: VaultId)
    requires LogsOk(logs) && AllMirrorsOk(was, logs) && v in was
    requires asked == ReadyCursors(was) && PullAnswers(logs, served, asked, r)
    ensures
      var after := Absorb(was[v], v, r);
      && MirrorOk(after, LogIn(logs, v)) && after.key == was[v].key && after.keyVersion == was[v].keyVersion
      && after.cursor == (if v in asked && v in r.cursors then r.cursors[v] else was[v].cursor)
      && was[v].cursor <= after.cursor
  {
    hide MirrorOk, LogOk, Absorb, HeadsReached, SomeProgress, Survivors;
    assert LogOk(LogIn(logs, v)) && MirrorOk(was[v], LogIn(logs, v));
    assert v in asked <==> was[v].key.Some?;
    assert v in asked ==> PageFor(LogIn(logs, v), r.rows, v, asked[v], r.cursors[v]);
    AnswerForVault(was[v], LogIn(logs, v), v, asked, r);
  }

  lemma AnswerForAll(
    was: map<VaultId, Mirror>, now: map<VaultId, Mirror>, logs: Logs, served: set<VaultId>,
    asked: map<VaultId, nat>, r: Pulled)
    requires LogsOk(logs) && AllMirrorsOk(was, logs)
    requires asked == ReadyCursors(was) && PullAnswers(logs, served, asked, r)
    requires AbsorbedEach(now, was, r)
    ensures AllMirrorsOk(now, logs) && Moved(was, now) && Landing(now, was, asked, r)
  {
    hide MirrorOk, Absorb, LogOk, LogsOk, PageFor, PullAnswers, ReadyCursors;
    forall v | v in now
      ensures MirrorOk(now[v], LogIn(logs, v))
      ensures now[v].key == was[v].key && now[v].keyVersion == was[v].keyVersion
      ensures now[v].cursor == if v in asked && v in r.cursors then r.cursors[v] else was[v].cursor
      ensures was[v].cursor <= now[v].cursor
    {
      AnswerForOne(was, logs, served, asked, r, v);
    }
  }

  /** An answer either ends at the head or leaves strictly fewer rows unread. */
  lemma LandingMeasures(
    was: map<VaultId, Mirror>, now: map<VaultId, Mirror>, logs: Logs, served: set<VaultId>,
    asked: map<VaultId, nat>, r: Pulled)
    requires AllMirrorsOk(now, logs) && Moved(was, now) && Landing(now, was, asked, r)
    requires asked == ReadyCursors(was) && PullAnswers(logs, served, asked, r)
    ensures r.hasMore ==> Unread(now, logs) < Unread(was, logs)
    ensures !r.hasMore ==> AtHead(now, served, logs)
  {
    hide MirrorOk, Replay, LogIn;
    if r.hasMore {
      var v :| SyncServer.Advanced(asked, r.cursors, v);
      HeldParts(now[v], LogIn(logs, v));
      assert (v, was[v].cursor) in Unread(was, logs) - Unread(now, logs);
    } else {
      forall v | v in now && now[v].key.Some? && v in served
        ensures now[v].entities == Replay(LogIn(logs, v), now[v].key, now[v].keyVersion)
      {
        assert v in asked && v in r.cursors;
        HeldAtEnd(now[v], LogIn(logs, v));
      }
    }
  }

  // ----- attempts of a commit -----

  /** One push of a commit: the mirror and rows it was built from, whether the
      vault could be written then, the rows the server held when the push
      arrived, and what became of each item. */
  datatype Attempt = Attempt(
    seen: Mirror, pulled: Log, role: Option<bool>, plan: Plan, before: Log, gate: Gate, items: seq<Item>,
      outcomes: seq<Outcome>)

  /** The vault could be written, the push carries the plan's edits, each on the
      version that was seen, and every accepted one replaced exactly what was seen. */
  ghost predicate Sound(a: Attempt) {
    && a.role == Some(true)
    && SealedItems(a.seen, a.plan) == Ok(a.items)
    && a.outcomes == PushItems(a.before, a.gate, a.items).1
    && forall k :: 0 <= k < |a.items| && a.outcomes[k] == Accepted ==>
         ReplacesWhatWasSeen(a.seen, LogAt(a.before, a.gate, a.items, k), a.items[k])
  }

  predicate AllAccepted(outcomes: seq<Outcome>) { forall o :: o in outcomes ==> o == Accepted }

  /** Plans are built from a mirror; the number stands for the random ids of that attempt. */
  type Build = (nat, Mirror) -> Result<Plan, PlanError>

  ghost predicate EachFromItsMirror(attempts: seq<Attempt>, build: Build) {
    forall k :: 0 <= k < |attempts| ==> Sound(attempts[k]) && build(k, attempts[k].seen) == Ok(attempts[k].plan)
  }

  /** How the bridge reads a push: any refused item ends it, any conflict repeats it. */
  datatype Verdict = Denied | Clashed | Landed

  function VerdictOf(outcomes: seq<Outcome>): (v: Verdict)
    ensures v == Landed <==> AllAccepted(outcomes)
  {
    if Rejected in outcomes then Denied else if Conflict in outcomes then Clashed else Landed
  }

  ghost predicate ClashedUntil(attempts: seq<Attempt>, n: int) {
    forall k :: 0 <= k < n && k < |attempts| ==> VerdictOf(attempts[k].outcomes) == Clashed
  }

  predicate LastAccepted(attempts: seq<Attempt>) {
    attempts != [] && AllAccepted(attempts[|attempts| - 1].outcomes)
  }

  /** The mirror of a vault when it was last at the end of a pull, the log it
      was pulled from, and whether the server served the vault then. */
  datatype Sight = Sight(mirror: Mirror, log: Log, served: bool)
  {
    /** The mirror showed all of that log. */
    ghost predicate Whole() { mirror.entities == Replay(log, mirror.key, mirror.keyVersion) }
  }

  function SightOf(held: map<VaultId, Mirror>, served: set<VaultId>, logs: Logs, vid: VaultId): Sight {
    Sight(if vid in held then held[vid] else Mirror(0, None, 0, map[]), LogIn(logs, vid), vid in served)
  }

  /** A vault that was served to us, and that we hold a key for, was seen whole. */
  ghost predicate SeenWell(sight: Sight) { sight.served && sight.mirror.key.Some? ==> sight.Whole() }

  predicate StartedOver(m: Mirror) { m.cursor == 0 && m.entities == map[] }

  /** A mirror some refreshes after `sight`: still the same, or started over. */
  predicate Follows(m: Mirror, sight: Sight) { m == sight.mirror || StartedOver(m) }

  lemma SightStarts(held: map<VaultId, Mirror>, served: set<VaultId>, logs: Logs, vid: VaultId)
    ensures vid in held ==> Follows(held[vid], SightOf(held, served, logs, vid))
    ensures SightOf(held, served, logs, vid).log == LogIn(logs, vid)
  {
  }

  lemma LogsOnlyGrow(a: Logs, b: Logs, vid: VaultId, log: Log)
    requires Grows(a, b) && log <= LogIn(a, vid)
    ensures log <= LogIn(b, vid)
  {
  }

  lemma HeadIsSeenWell(held: map<VaultId, Mirror>, served: set<VaultId>, logs: Logs, vid: VaultId)
    requires AtHead(held, served, logs)
    ensures SeenWell(SightOf(held, served, logs, vid))
  {
  }

  lemma {:induction false} RelistKeepsOrStartsOver(
    held: map<VaultId, Mirror>, me: seq<BridgeVault>, keyPair: nat, v: VaultId)
    requires v in held
    ensures
      var after := Relist(held, me, keyPair);
      v in after && (after[v] == held[v] || StartedOver(after[v]))
  {
    if me != [] { RelistKeepsOrStartsOver(held, me[..|me| - 1], keyPair, v); }
  }

  predicate CarriesKeyOf(m: Mirror, bv: BridgeVault, keyPair: nat) {
    bv.keyVersion == m.keyVersion && OpenSealed(keyPair, bv.sealedKey) == m.key
  }

  /** Every line about `v` carries the key that `m` is read with. */
  ghost predicate SameKeyListed(me: seq<BridgeVault>, v: VaultId, m: Mirror, keyPair: nat) {
    forall k :: 0 <= k < |me| && me[k].id == v ==> CarriesKeyOf(m, me[k], keyPair)
  }

  lemma {:induction false} RelistAddsOnlyListed(
    held: map<VaultId, Mirror>, me: seq<BridgeVault>, keyPair: nat, v: VaultId)
    requires v !in held && !IsListed(v, me)
    ensures v !in Relist(held, me, keyPair)
  {
    if me != [] {
      assert me[|me| - 1].id != v;
      assert forall k :: 0 <= k < |me| - 1 ==> me[..|me| - 1][k] == me[k];
      RelistAddsOnlyListed(held, me[..|me| - 1], keyPair, v);
    }
  }

  /** Exactly when adopting a list keeps what a mirror has pulled. */
  lemma {:induction false} RelistKeepsExactly(
    held: map<VaultId, Mirror>, me: seq<BridgeVault>, keyPair: nat, v: VaultId)
    requires v in held && !StartedOver(held[v])
    ensures v in Relist(held, me, keyPair)
    ensures Relist(held, me, keyPair)[v] == held[v] <==> SameKeyListed(me, v, held[v], keyPair)
  {
    if me != [] {
      var init, bv := me[..|me| - 1], me[|me| - 1];
      RelistKeepsExactly(held, init, keyPair, v);
      RelistKeepsOrStartsOver(held, init, keyPair, v);
      assert SameKeyListed(me, v, held[v], keyPair) <==>
        SameKeyListed(init, v, held[v], keyPair) && (bv.id == v ==> CarriesKeyOf(held[v], bv, keyPair));
    }
  }

  /** No later line is about the same vault. */
  predicate LastLine(me: seq<BridgeVault>, k: nat)
    requires k < |me|
  {
    forall j :: k < j < |me| ==> me[j].id != me[k].id
  }

  /** After a list exactly the listed vaults are held. Each follows its last
      line: its version, its role, and the key sealed to us, if there is one. */
  lemma {:induction false} ListedAsTold(held: map<VaultId, Mirror>, me: seq<BridgeVault>, keyPair: nat, k: nat)
    requires k < |me| && LastLine(me, k)
    ensures
      var line := me[k];
      && line.id in Relist(held, me, keyPair)
      && var m := Relist(held, me, keyPair)[line.id];
      && m.keyVersion == line.keyVersion
      && (forall key :: m.key == Some(key) <==> line.sealedKey == Some(SealedTo(keyPair, key)))
      && forall was :: RoleTold(me, line.id, was) == Some(line.writable)
  {
    var n := |me| - 1;
    if k < n {
      assert me[n].id != me[k].id;
      assert LastLine(me[..n], k) by {
        forall j | k < j < n ensures me[..n][j].id != me[..n][k].id { assert me[j].id != me[k].id; }
      }
      ListedAsTold(held, me[..n], keyPair, k);
    }
  }

  lemma {:induction false} RelistHas(held: map<VaultId, Mirror>, me: seq<BridgeVault>, keyPair: nat, v: VaultId)
    ensures v in Relist(held, me, keyPair) <==> v in held || IsListed(v, me)
  {
    if me != [] {
      var n := |me| - 1;
      RelistHas(held, me[..n], keyPair, v);
      if IsListed(v, me) && me[n].id != v {
        var k :| 0 <= k < |me| && me[k].id == v;
        assert me[..n][k].id == v;
      }
      if IsListed(v, me[..n]) {
        var k :| 0 <= k < n && me[..n][k].id == v;
        assert me[k].id == v;
      }
      if me[n].id == v { assert IsListed(v, me); }
    }
  }

  /** An empty plan, and what its mirror had to do with the log. */
  ghost predicate NothingAsked(
    held: map<VaultId, Mirror>, logs: Logs, vid: VaultId, attempts: seq<Attempt>, build: Build, sight: Sight)
  {
    && NothingToDo(held, vid, |attempts|, build)
    && Follows(held[vid], sight) && sight.log <= LogIn(logs, vid)
    && (attempts != [] ==> SeenWell(sight))
  }

  /** What the mirror has to do with `sight` when attempt `n` begins. */
  ghost predicate SightFits(held: map<VaultId, Mirror>, logs: Logs, vid: VaultId, sight: Sight, n: nat) {
    && (vid in held ==> Follows(held[vid], sight))
    && sight.log <= LogIn(logs, vid) && (n > 0 ==> SeenWell(sight))
  }

  /** What a successful commit means: its last push was accepted whole and every
      served mirror is at the head, or the mirror it ended on asks for nothing. */
  ghost predicate Settled(
    held: map<VaultId, Mirror>, served: set<VaultId>, logs: Logs,
    vid: VaultId, attempts: seq<Attempt>, build: Build, sight: Sight)
  {
    || (LastAccepted(attempts) && AtHead(held, served, logs))
    || NothingAsked(held, logs, vid, attempts, build, sight)
  }

  /** A pass that succeeded settles the commit. */
  lemma PassSettles(
    was: map<VaultId, Mirror>, logs: Logs, held: map<VaultId, Mirror>, served: set<VaultId>, longer: Logs,
    vid: VaultId, before: seq<Attempt>, attempts: seq<Attempt>, build: Build, sight: Sight)
    requires SightFits(was, logs, vid, sight, |before|) && Grows(logs, longer)
    requires (LastAccepted(attempts) && AtHead(held, served, longer)) ||
      (held == was && attempts == before && NothingToDo(held, vid, |before|, build))
    ensures Settled(held, served, longer, vid, attempts, build, sight)
  {
    LogsOnlyGrow(logs, longer, vid, sight.log);
  }

  lemma SettledIsSeen(
    held: map<VaultId, Mirror>, served: set<VaultId>, logs: Logs,
    vid: VaultId, attempts: seq<Attempt>, build: Build, sight: Sight)
    ensures Settled(held, served, logs, vid, attempts, build, sight) ==>
      LastAccepted(attempts) || attempts == [] || SeenWell(sight)
  {
  }

  predicate NothingLive(log: Log) { forall i :: 0 <= i < |log| && Latest(log, i) ==> log[i].deleted }

  lemma ShownIsLive(log: Log, key: Option<Key>, keyVersion: int, id: Id) returns (k: nat)
    requires id in Replay(log, key, keyVersion)
    ensures k < |log| && Latest(log, k) && !log[k].deleted
  {
    var full := Replay(log, key, keyVersion);
    ReplayIsFaithful(log, key, keyVersion, |log|);
    assert log[..|log|] == log;
    var i := ShownRow(Mirror(keyVersion, key, |log|, full), log, id);
    var e := Current(log, id).value;
    k :| 0 <= k < |log| && log[k] == e && Latest(log, k);
  }

  lemma ReplayIsEmptyExactly(log: Log, key: Option<Key>, keyVersion: int)
    ensures Replay(log, key, keyVersion) == map[] <==> NothingLive(log)
  {
    var full := Replay(log, key, keyVersion);
    ReplayIsFaithful(log, key, keyVersion, |log|);
    assert log[..|log|] == log;
    if full != map[] {
      var id :| id in full;
      var k := ShownIsLive(log, key, keyVersion, id);
    }
    if i :| 0 <= i < |log| && Latest(log, i) && !log[i].deleted { assert log[i].id in full; }
  }

  /** Exactly when the mirror an empty plan was built on showed the log: no
      refresh after the pull started it over, or there was nothing to show. */
  lemma NothingAskedOfTheLogExactly(m: Mirror, sight: Sight)
    requires sight.Whole() && Follows(m, sight)
    ensures m.entities == Replay(sight.log, m.key, m.keyVersion) <==> m == sight.mirror || NothingLive(sight.log)
  {
    ReplayIsEmptyExactly(sight.log, m.key, m.keyVersion);
  }

  lemma NoAttempts(build: Build)
    ensures EachFromItsMirror([], build) && ClashedUntil([], 0)
  {
  }

  lemma OneMoreAttempt(attempts: seq<Attempt>, a: Attempt, build: Build) returns (after: seq<Attempt>)
    requires EachFromItsMirror(attempts, build) && ClashedUntil(attempts, |attempts|)
    requires Sound(a) && build(|attempts|, a.seen) == Ok(a.plan)
    ensures after == attempts + [a]
    ensures EachFromItsMirror(after, build) && ClashedUntil(after, |attempts|)
    ensures VerdictOf(a.outcomes) == Clashed ==> ClashedUntil(after, |attempts| + 1)
    ensures VerdictOf(a.outcomes) == Landed ==> LastAccepted(after)
  {
    after := attempts + [a];
  }

  predicate NothingToDo(held: map<VaultId, Mirror>, vid: VaultId, attemptNo: nat, build: Build) {
    vid in held && build(attemptNo, held[vid]).Ok? && build(attemptNo, held[vid]).value.IsEmpty()
  }

  lemma AttemptIsSound(a: Attempt)
    requires Agrees(a.seen, a.pulled) && a.pulled <= a.before && LogOk(a.before) && a.role == Some(true)
    requires SealedItems(a.seen, a.plan) == Ok(a.items)
    requires a.outcomes == PushItems(a.before, a.gate, a.items).1
    ensures Sound(a)
  {
    forall k | 0 <= k < |a.items| && a.outcomes[k] == Accepted
      ensures ReplacesWhatWasSeen(a.seen, LogAt(a.before, a.gate, a.items, k), a.items[k])
    {
      AcceptedItemsLoseNothing(a.seen, a.pulled, a.before, a.gate, a.items, k);
    }
  }

  /** The server a request meets: others have acted once more. */
  function Met(w: World, script: seq<seq<Event>>): World { HappenedAll(w, NextBatch(script)) }

  lemma QuietServer(w: World)
    ensures HappenedAll(w, NextBatch([])) == w
  {
  }

  /** The server after a push that met `w`. */
  function Pushed(w: World, vid: VaultId, items: seq<Item>): World {
    w.(logs := w.logs[vid := PushItems(LogIn(w.logs, vid), w.GateOf(vid), items).0])
  }

  /** What becomes of a request before anything is sent. */
  function Prepared(held: map<VaultId, Mirror>, role: Option<bool>, vid: VaultId, k: nat, build: Build):
      Result<Option<(Plan, seq<Item>)>, BridgeError>
  {
    if vid !in held || role.None? then Err(NotFound("vault"))
    else if !role.value then Err(ReadOnly)
    else
      match build(k, held[vid])
      case Err(e) => Err(Unplannable(e))
      case Ok(plan) =>
        if plan.IsEmpty() then Ok(None)
        else
          match SealedItems(held[vid], plan)
          case Err(e) => Err(e)
          case Ok(items) => Ok(Some((plan, items)))
  }

  /** A write to a vault that is not held, or that we may not write, ends with
      that error, and only such a write does. */
  predicate Refuses<T>(role: Option<bool>, r: Result<T, BridgeError>) {
    && (role == None <==> r.Err? && r.error == NotFound("vault"))
    && (role == Some(false) <==> r.Err? && r.error == ReadOnly)
  }

  lemma RoleSays<T>(role: Option<bool>, r: Result<T, BridgeError>)
    requires Refuses(role, r)
    ensures r.Ok? ==> role == Some(true)
  {
    match role
    case Some(true) =>
    case Some(false) =>
    case None =>
  }

  lemma PassIs(r: Result<bool, BridgeError>)
    ensures r.Err? || r == Ok(true) || r == Ok(false)
  {
    match r
    case Ok(true) =>
    case Ok(false) =>
    case Err(_) =>
  }

  lemma RefusesSame<T, U>(role: Option<bool>, p: Result<T, BridgeError>, r: Result<U, BridgeError>)
    requires Refuses(role, p)
    requires if p.Err? then r.Err? && r.error == p.error else r.Ok? || r.error == Refused
    ensures Refuses(role, r)
  {
  }

  /** Case by case, what becomes of a request before anything is sent. */
  lemma PreparedExactly(held: map<VaultId, Mirror>, role: Option<bool>, vid: VaultId, k: nat, build: Build)
    requires vid in held <==> role.Some?
    ensures
      var r := Prepared(held, role, vid, k, build);
      && Refuses(role, r)
      && (role == Some(true) ==>
            && (forall e :: r == Err(Unplannable(e)) <==> build(k, held[vid]) == Err(e))
            && (r == Ok(None) <==> build(k, held[vid]) == Ok(Plan([], [])))
            && (r == Err(Pending) <==>
                  build(k, held[vid]).Ok? && build(k, held[vid]).value.changes != [] && held[vid].key.None?)
            && (r.Err? ==> r.error.Unplannable? || r.error == Pending))
  {
  }

  /** How a verdict ends one pass of the commit loop. */
  function PassOf(v: Verdict): Result<bool, BridgeError> {
    match v case Denied => Err(Refused) case Landed => Ok(true) case Clashed => Ok(false)
  }

  /** One pass, once its request is prepared: it ends there, or as the push did. */
  ghost predicate OncePrepared(
    p: Result<Option<(Plan, seq<Item>)>, BridgeError>, r: Result<bool, BridgeError>, attempts: seq<Attempt>)
  {
    match p
    case Err(e) => r == Err(e)
    case Ok(None) => r == Ok(true)
    case Ok(Some((plan, items))) =>
      && |attempts| > 0
      && var a := attempts[|attempts| - 1];
         a.plan == plan && a.items == items && r == PassOf(VerdictOf(a.outcomes))
  }

  lemma ClashedSooner(attempts: seq<Attempt>, n: nat)
    requires ClashedUntil(attempts, n)
    ensures ClashedUntil(attempts, n - 1)
  {
  }

  lemma NothingAttempted(p: Result<Option<(Plan, seq<Item>)>, BridgeError>, attempts: seq<Attempt>)
    ensures p.Err? ==> OncePrepared(p, Err(p.error), attempts)
    ensures p == Ok(None) ==> OncePrepared(p, Ok(true), attempts)
  {
  }

  lemma PassEnds(p: Result<Option<(Plan, seq<Item>)>, BridgeError>, v: Verdict, attempts: seq<Attempt>)
    requires p.Ok? && p.value.Some? && attempts != []
    requires var a := attempts[|attempts| - 1]; p.value.value == (a.plan, a.items) && v == VerdictOf(a.outcomes)
    ensures OncePrepared(p, match v case Denied => Err(Refused) case Landed => Ok(true) case Clashed => Ok(false),
        attempts)
  {
  }

  /** The push met `w`. */
  ghost predicate PushMet(a: Attempt, w: World, vid: VaultId) {
    a.before == LogIn(w.logs, vid) && a.gate == w.GateOf(vid)
  }

  lemma PreparedMeans(
    held: map<VaultId, Mirror>, role: Option<bool>, vid: VaultId, k: nat, build: Build)
    ensures
      var r := Prepared(held, role, vid, k, build);
      && (r.Ok? ==> vid in held && build(k, held[vid]).Ok?)
      && (r == Ok(None) ==> NothingToDo(held, vid, k, build))
      && (r.Ok? && r.value.Some? ==>
            var (plan, items) := r.value.value;
            build(k, held[vid]) == Ok(plan) && SealedItems(held[vid], plan) == Ok(items))
      && r != Err(TooManyConflicts)
  {
  }

  lemma AdoptedIs(held: map<VaultId, Mirror>, roles: map<VaultId, bool>, bv: BridgeVault, keyPair: nat)
    ensures
      var open := if bv.id in held then held else held[bv.id := NewMirror(bv)];
      Adopted(held, bv, keyPair) ==
        open[bv.id := Rekeyed(open[bv.id], bv.keyVersion, OpenSealed(keyPair, bv.sealedKey))]
    ensures roles[bv.id := bv.writable][bv.id := bv.writable] == roles[bv.id := bv.writable]
  {
  }

  /** Whether a vault may be written, if it is held. */
  function RoleIn(roles: map<VaultId, bool>, v: VaultId): Option<bool> { if v in roles then Some(roles[v]) else None }

  class Bridge {
    const server: Server
    const keyPair: nat
    var vaults: map<VaultId, VaultState>
    /** The mirrors held now, as values. */
    ghost var held: map<VaultId, Mirror>
    /** Which of the vaults may be written. */
    ghost var roles: map<VaultId, bool>

    ghost predicate Shown()
      reads this, vaults.Values
    {
      && vaults.Keys == held.Keys
      && forall v :: v in vaults ==> vaults[v].id == v && vaults[v].Held() == held[v]
    }

    ghost predicate RolesShown()
      reads `vaults, `roles, vaults.Values`writable
    {
      && vaults.Keys == roles.Keys
      && forall v :: v in vaults ==> vaults[v].writable == roles[v]
    }

    ghost predicate Valid()
      reads this, server`logs, vaults.Values
    {
      server.Valid() && Shown() && RolesShown() && AllMirrorsOk(held, server.logs)
    }

    lemma ValidIs()
      requires Valid()
      ensures server.Valid() && Shown() && RolesShown() && AllMirrorsOk(held, server.logs) && vaults.Keys == held.Keys
    {
    }

    lemma CursorsFit()
      requires Valid()
      ensures forall v :: v in ReadyCursors(held) ==> ReadyCursors(held)[v] <= |LogIn(server.logs, v)|
    {
      hide Shown, RolesShown;
    }

    lemma ValidFrom()
      requires server.Valid() && Shown() && RolesShown() && AllMirrorsOk(held, server.logs)
      ensures Valid()
    {
    }

    constructor (server: Server, keyPair: nat)
      requires server.Valid()
      ensures Valid() && this.server == server && this.keyPair == keyPair && vaults == map[] && held == map[]
    {
      this.server, this.keyPair, vaults, held, roles := server, keyPair, map[], map[], map[];
    }

    /** The entry of a vault, created empty and locked when it is new. */
    method EntryOf(bv: BridgeVault) returns (v: VaultState)
      requires Shown() && RolesShown()
      modifies this
      ensures Shown() && RolesShown() && bv.id in vaults && vaults[bv.id] == v
      ensures held == if bv.id in old(held) then old(held) else old(held)[bv.id := NewMirror(bv)]
      ensures roles == if bv.id in old(vaults) then old(roles) else old(roles)[bv.id := bv.writable]
      ensures vaults == old(vaults) || (vaults == old(vaults)[bv.id := v] && fresh(v))
    {
      if bv.id !in vaults {
        var state := new VaultState(bv.id, bv.name, bv.writable, bv.keyVersion);
        vaults := vaults[bv.id := state];
        held, roles := held[bv.id := NewMirror(bv)], roles[bv.id := bv.writable];
      }
      v := vaults[bv.id];
    }

    /** Take a line's name, role and key into the entry it is about. */
    method RekeyEntry(v: VaultState, bv: BridgeVault, key: Option<Key>)
      requires Shown() && RolesShown() && bv.id in vaults && vaults[bv.id] == v
      modifies `held, `roles, v
      ensures Shown() && RolesShown() && held == old(held)[bv.id := Rekeyed(old(held)[bv.id], bv.keyVersion, key)]
      ensures roles == old(roles)[bv.id := bv.writable]
    {
      hide Rekeyed, RoleIn, VaultState.Held;
      assert vaults[bv.id].Held() == held[bv.id];
      v.Rekey(bv, key);
      held, roles := held[bv.id := Rekeyed(held[bv.id], bv.keyVersion, key)], roles[bv.id := bv.writable];
    }

    /** One line of `/bridge/me`: open its key, start over if the key moved. */
    method Adopt(bv: BridgeVault)
      requires Shown() && RolesShown()
      modifies this, vaults.Values
      ensures Shown() && RolesShown() && held == Adopted(old(held), bv, keyPair)
      ensures roles == old(roles)[bv.id := bv.writable]
      ensures forall v :: v in vaults ==> vaults[v] in old(vaults.Values) || fresh(vaults[v])
    {
      hide *;
      AdoptedIs(held, roles, bv, keyPair);
      var key := OpenSealed(keyPair, bv.sealedKey);
      var v := EntryOf(bv);
      RekeyEntry(v, bv, key);
    }

    method DropUnlisted(me: seq<BridgeVault>)
      requires Shown() && RolesShown()
      modifies this
      ensures Shown() && RolesShown() && held == Listed(old(held), me)
      ensures forall u :: RoleIn(roles, u) == if IsListed(u, me) then RoleIn(old(roles), u) else None
      ensures forall v :: v in vaults ==> v in old(vaults) && vaults[v] == old(vaults)[v]
    {
      vaults := map v | v in vaults && IsListed(v, me) :: vaults[v];
      held, roles := Listed(held, me), map v | v in roles && IsListed(v, me) :: roles[v];
    }

    method AdoptAll(me: seq<BridgeVault>)
      requires Shown() && RolesShown()
      modifies this, vaults.Values
      ensures Shown() && RolesShown() && held == Relist(old(held), me, keyPair)
      ensures forall u :: RoleIn(roles, u) == RoleTold(me, u, RoleIn(old(roles), u))
      ensures forall v :: v in vaults ==> vaults[v] in old(vaults.Values) || fresh(vaults[v])
    {
      hide Shown, RolesShown, Adopted;
      for i := 0 to |me|
        invariant Shown() && RolesShown() && held == Relist(old(held), me[..i], keyPair)
        invariant forall u :: RoleIn(roles, u) == RoleTold(me[..i], u, RoleIn(old(roles), u))
        invariant forall v :: v in vaults ==> vaults[v] in old(vaults.Values) || fresh(vaults[v])
      {
        Adopt(me[i]);
        assert me[..i + 1][..i] == me[..i];
      }
      assert me[..|me|] == me;
    }

    /** The vault set and its mirrors, as the list leaves them. */
    method TakeList(me: seq<BridgeVault>)
      requires Shown() && RolesShown()
      modifies this, vaults.Values
      ensures Shown() && RolesShown() && held == Relist(Listed(old(held), me), me, keyPair)
      ensures forall u :: RoleIn(roles, u) == RoleTold(me, u, if IsListed(u, me) then RoleIn(old(roles), u) else None)
      ensures forall v :: v in vaults ==> vaults[v] in old(vaults.Values) || fresh(vaults[v])
    {
      hide Relist, Listed, IsListed, RoleTold;
      DropUnlisted(me);
      AdoptAll(me);
    }

    /** The server's list decides: entries it does not name go, the others follow
        its lines one by one. */
    method Reconcile(me: seq<BridgeVault>)
      requires Valid()
      modifies this, vaults.Values
      ensures Valid() && held == Relist(Listed(old(held), me), me, keyPair)
      ensures forall u :: RoleIn(roles, u) == RoleTold(me, u, if IsListed(u, me) then RoleIn(old(roles), u) else None)
      ensures forall v :: v in held <==> IsListed(v, me)
      ensures forall v :: v in vaults ==> vaults[v] in old(vaults.Values) || fresh(vaults[v])
    {
      ListedKeepsMirrors(held, me, server.logs);
      RelistKeepsMirrors(Listed(held, me), me, keyPair, server.logs);
      forall v
        ensures v in Relist(Listed(held, me), me, keyPair) <==> IsListed(v, me)
      {
        RelistHas(Listed(held, me), me, keyPair, v);
      }
      hide MirrorOk, AllMirrorsOk, LogsOk, Relist, Listed, IsListed, RoleTold;
      TakeList(me);
    }

    // ----- pulling -----

    /** The vaults whose mirror a request can move, with their cursors. */
    method Asked() returns (asked: map<VaultId, nat>)
      requires Valid()
      ensures asked == ReadyCursors(held)
    {
      hide MirrorOk, AllMirrorsOk, LogsOk, LogOk;
      asked := map v | v in vaults && vaults[v].Ready() :: vaults[v].cursor;
    }

    method ApplyTo(row: Row)
      requires Shown()
      modifies `held, vaults.Values`cursor, vaults.Values`entities
      ensures Shown() && held == LandedRows(old(held), [row])
    {
      assert [row][..0] == [];
      if row.vault in vaults {
        vaults[row.vault].Apply(row.entry);
        held := held[row.vault := ApplyRow(held[row.vault], row.entry)];
      }
    }

    method ApplyPulledRows(rows: seq<Row>)
      requires Shown()
      modifies `held, vaults.Values`cursor, vaults.Values`entities
      ensures Shown() && held == LandedRows(old(held), rows)
    {
      for i := 0 to |rows|
        invariant Shown() && held == LandedRows(old(held), rows[..i])
      {
        ApplyTo(rows[i]);
        LandedStep(old(held), rows, i);
      }
      assert rows[..|rows|] == rows;
    }

    method AdvanceTo(v: VaultId, c: nat)
      requires Shown()
      modifies `held, vaults.Values`cursor, vaults.Values`entities
      ensures Shown()
      ensures held == if v in old(held) then old(held)[v := MovedTo(old(held)[v], c)] else old(held)
    {
      if v in vaults {
        vaults[v].Advance(c);
        held := held[v := MovedTo(held[v], c)];
      }
    }

    method AdvanceCursors(cursors: map<VaultId, nat>)
      requires Shown()
      modifies `held, vaults.Values`cursor, vaults.Values`entities
      ensures Shown() && held.Keys == old(held.Keys)
      ensures forall v :: v in held ==>
        held[v] == if v in cursors then MovedTo(old(held)[v], cursors[v]) else old(held)[v]
    {
      hide Shown;
      var todo := cursors.Keys;
      while todo != {}
        invariant todo <= cursors.Keys && Shown() && held.Keys == old(held.Keys)
        invariant forall v :: v in held ==>
          held[v] == if v in cursors && v !in todo then MovedTo(old(held)[v], cursors[v]) else old(held)[v]
      {
        var v :| v in todo;
        todo := todo - {v};
        AdvanceTo(v, cursors[v]);
      }
    }

    /** Its rows first, then the cursors it hands out. */
    method AbsorbAnswer(r: Pulled)
      requires Shown()
      modifies `held, vaults.Values`cursor, vaults.Values`entities
      ensures Shown() && vaults == old(vaults) && AbsorbedEach(held, old(held), r)
    {
      ApplyPulledRows(r.rows);
      AdvanceCursors(r.cursors);
      forall v | v in old(held)
        ensures held[v] == Absorb(old(held)[v], v, r)
      {
        LandedPerVault(old(held), r.rows, v);
      }
    }

    /** Take one answer: either it ends at the head or fewer rows stay unread. */
    method TakeAnswer(r: Pulled)
      requires Valid() && PullAnswers(server.logs, server.served, ReadyCursors(held), r)
      modifies `held, vaults.Values`cursor, vaults.Values`entities
      ensures Valid() && vaults == old(vaults) && Moved(old(held), held)
      ensures if r.hasMore then Unread(held, server.logs) < Unread(old(held), server.logs)
              else AtHead(held, server.served, server.logs)
    {
      hide *;
      ValidIs();
      AbsorbAnswer(r);
      ghost var asked := ReadyCursors(old(held));
      AnswerForAll(old(held), held, server.logs, server.served, asked, r);
      LandingMeasures(old(held), held, server.logs, server.served, asked, r);
      ValidFrom();
    }

    /** Ask; the rows others wrote meanwhile leave our mirrors sound. */
    method Request(asked: map<VaultId, nat>) returns (r: Pulled)
      requires Valid() && asked == ReadyCursors(held)
      modifies server
      ensures Valid() && Grows(old(server.logs), server.logs)
      ensures PullAnswers(server.logs, server.served, asked, r)
      ensures server.script == LaterBatches(old(server.script))
      ensures old(server.script) == [] ==> server.Now() == old(server.Now())
    {
      hide *;
      ValidIs();
      CursorsFit();
      QuietServer(server.Now());
      r := server.Pull(asked);
      GrowthKeepsMirrors(held, old(server.logs), server.logs);
      ValidFrom();
    }

    /** One request, one answer. */
    method PullOnce(asked: map<VaultId, nat>) returns (more: bool)
      requires Valid() && asked == ReadyCursors(held)
      modifies `held, server, vaults.Values`cursor, vaults.Values`entities
      ensures Valid() && vaults == old(vaults) && Moved(old(held), held)
      ensures Grows(old(server.logs), server.logs)
      ensures more ==> Unread(held, server.logs) < Unread(old(held), server.logs)
      ensures !more ==> AtHead(held, server.served, server.logs)
      ensures |server.script| <= |old(server.script)|
      ensures more && old(server.script) != [] ==> |server.script| < |old(server.script)|
      ensures old(server.script) == [] ==> server.Now() == old(server.Now())
    {
      hide MirrorOk, AllMirrorsOk, LogsOk, LogOk, PullAnswers, AtHead, Unread, ReadyCursors;
      var r := Request(asked);
      TakeAnswer(r);
      more := r.hasMore;
    }

    /** One turn of the loop: a request, unless nothing is ready. */
    method PullTurn() returns (more: bool)
      requires Valid()
      modifies `held, server, vaults.Values`cursor, vaults.Values`entities
      ensures Valid() && vaults == old(vaults) && Moved(old(held), held)
      ensures Grows(old(server.logs), server.logs)
      ensures more ==> Unread(held, server.logs) < Unread(old(held), server.logs)
      ensures !more ==> AtHead(held, server.served, server.logs)
      ensures |server.script| <= |old(server.script)|
      ensures more && old(server.script) != [] ==> |server.script| < |old(server.script)|
      ensures old(server.script) == [] ==> server.Now() == old(server.Now())
    {
      hide *;
      var asked := Asked();
      if asked == map[] {
        NothingReady(held, server.served, server.logs);
        NothingMoved(held, server.logs);
        return false;
      }
      more := PullOnce(asked);
    }

    /** Request after request, until every ready mirror is at the head. The others can hold us up only
        as long as they keep writing: each request uses one batch of the script. */
    method PullAll()
      requires Valid()
      modifies `held, server, vaults.Values`cursor, vaults.Values`entities
      ensures Valid() && vaults == old(vaults) && Moved(old(held), held)
      ensures Grows(old(server.logs), server.logs)
      ensures AtHead(held, server.served, server.logs)
      ensures |server.script| <= |old(server.script)|
      ensures old(server.script) == [] ==> server.Now() == old(server.Now())
    {
      hide *;
      NothingMoved(held, server.logs);
      var more := true;
      while more
        invariant Valid() && vaults == old(vaults) && Moved(old(held), held)
        invariant Grows(old(server.logs), server.logs)
        invariant !more ==> AtHead(held, server.served, server.logs)
        invariant |server.script| <= |old(server.script)|
        invariant old(server.script) == [] ==> server.Now() == old(server.Now())
        decreases more, |server.script|, Unread(held, server.logs)
      {
        label before:
        more := PullTurn();
        MovedTransitive(old(held), old@before(held), held);
        GrowsTransitive(old(server.logs), old@before(server.logs), server.logs);
      }
    }

    method AskMe() returns (me: seq<BridgeVault>)
      requires Valid()
      modifies server
      ensures Valid() && Grows(old(server.logs), server.logs) && me == server.listing
      ensures server.script == LaterBatches(old(server.script))
      ensures server.Now() == Met(old(server.Now()), old(server.script))
    {
      hide MirrorOk, AllMirrorsOk, LogsOk, LogOk, HappenedAll, Shown, RolesShown;
      me := server.Me();
      GrowthKeepsMirrors(held, old(server.logs), server.logs);
    }

    method RefreshMe() returns (ghost list: seq<BridgeVault>)
      requires Valid()
      modifies this, server, vaults.Values
      ensures Valid() && Grows(old(server.logs), server.logs) && list == server.listing
      ensures held == Relist(Listed(old(held), list), list, keyPair)
      ensures forall u ::
        RoleIn(roles, u) == RoleTold(list, u, if IsListed(u, list) then RoleIn(old(roles), u) else None)
      ensures server.script == LaterBatches(old(server.script))
      ensures server.Now() == Met(old(server.Now()), old(server.script))
      ensures forall v :: v in vaults ==> vaults[v] in old(vaults.Values) || fresh(vaults[v])
    {
      hide *;
      var me := AskMe();
      Reconcile(me);
      list := me;
    }

    // ----- writing -----

    /** Seal every change of the plan and base every delete; a vault without a
        key has nothing to seal changes with. */
    method Seal(vault: VaultState, plan: Plan) returns (r: Result<seq<Item>, BridgeError>)
      ensures r == SealedItems(vault.Held(), plan)
    {
      var items := [];
      for i := 0 to |plan.changes|
        invariant i > 0 ==> vault.key.Some?
        invariant vault.key.Some? ==> items == ChangeItems(vault.Held(), vault.key.value, plan.changes[..i])
        invariant i == 0 ==> items == []
      {
        var (id, data) := plan.changes[i];
        var change := vault.Change(id, data);
        if change.Err? { return Err(Pending); }
        items := items + [change.value];
      }
      assert plan.changes[..|plan.changes|] == plan.changes;
      assert plan.changes == [] ==>
          items + DropItems(vault.Held(), plan.deletes) == DropItems(vault.Held(), plan.deletes);
      r := Ok(items + DropItems(vault.Held(), plan.deletes));
    }

    /** Push; the rows others wrote meanwhile leave our mirrors sound. */
    method AskPush(vid: VaultId, items: seq<Item>) returns (outcomes: seq<Outcome>, ghost before: Log, ghost gate: Gate)
      requires Valid()
      modifies server
      ensures Valid() && Grows(old(server.logs), server.logs)
      ensures LogOk(before) && LogIn(old(server.logs), vid) <= before <= LogIn(server.logs, vid)
      ensures LogIn(server.logs, vid) == PushItems(before, gate, items).0
      ensures outcomes == PushItems(before, gate, items).1
      ensures
        var met := Met(old(server.Now()), old(server.script));
        before == LogIn(met.logs, vid) && gate == met.GateOf(vid) && server.Now() == Pushed(met, vid, items)
      ensures server.script == LaterBatches(old(server.script))
    {
      hide MirrorOk, PushItems, LogOk, AllMirrorsOk, Shown, RolesShown;
      outcomes, before, gate := server.Push(vid, items);
      GrowthKeepsMirrors(held, old(server.logs), server.logs);
    }

    /** Push the plan's items and record the attempt. */
    method PushPlan(vid: VaultId, plan: Plan, items: seq<Item>) returns (outcomes: seq<Outcome>, ghost attempt: Attempt)
      requires Valid() && vid in vaults && SealedItems(held[vid], plan) == Ok(items) && RoleIn(roles, vid) == Some(true)
      modifies server
      ensures Valid() && Grows(old(server.logs), server.logs)
      ensures Sound(attempt) && attempt.plan == plan && attempt.seen == held[vid] && attempt.outcomes == outcomes
      ensures attempt.pulled == LogIn(old(server.logs), vid) && attempt.before <= LogIn(server.logs, vid)
      ensures LogIn(server.logs, vid) == PushItems(attempt.before, attempt.gate, items).0
      ensures PushMet(attempt, Met(old(server.Now()), old(server.script)), vid) && attempt.items == items
      ensures server.Now() == Pushed(Met(old(server.Now()), old(server.script)), vid, items)
      ensures server.script == LaterBatches(old(server.script))
    {
      ghost var pulled := LogIn(server.logs, vid);
      ghost var before, gate;
      HeldParts(held[vid], pulled);
      hide MirrorOk, Agrees, PushItems, SealedItems, AllMirrorsOk, LogsOk, LogOk, Sound;
      outcomes, before, gate := AskPush(vid, items);
      attempt := Attempt(held[vid], pulled, RoleIn(roles, vid), plan, before, gate, items, outcomes);
      AttemptIsSound(attempt);
    }

    /** Look the vault up, build the plan on its mirror and seal it; no items
        means that there is nothing to do. */
    method Prepare(vid: VaultId, attemptNo: nat, build: Build)
        returns (r: Result<Option<(Plan, seq<Item>)>, BridgeError>)
      requires Shown() && RolesShown()
      ensures r == Prepared(held, RoleIn(roles, vid), vid, attemptNo, build)
      ensures Refuses(RoleIn(roles, vid), r) && (r.Ok? ==> RoleIn(roles, vid) == Some(true))
    {
      if vid !in vaults { return Err(NotFound("vault")); }
      var vault := vaults[vid];
      if !vault.writable { return Err(ReadOnly); }
      var built := build(attemptNo, vault.Held());
      if built.Err? { return Err(Unplannable(built.error)); }
      if built.value.IsEmpty() { return Ok(None); }
      var sealed := Seal(vault, built.value);
      match sealed
      case Err(e) => r := Err(e);
      case Ok(items) => r := Ok(Some((built.value, items)));
    }

    /** Push and, unless the server refused an item, pull what the push did. */
    method PushRound(vid: VaultId, plan: Plan, items: seq<Item>) returns (verdict: Verdict, ghost attempt: Attempt)
      requires Valid() && vid in vaults && SealedItems(held[vid], plan) == Ok(items) && RoleIn(roles, vid) == Some(true)
      modifies `held, server, vaults.Values`cursor, vaults.Values`entities
      ensures Valid() && vaults == old(vaults) && Grows(old(server.logs), server.logs)
      ensures Sound(attempt) && attempt.plan == plan && attempt.seen == old(held)[vid]
      ensures verdict == VerdictOf(attempt.outcomes)
      ensures verdict != Denied ==> AtHead(held, server.served, server.logs)
      ensures PushMet(attempt, Met(old(server.Now()), old(server.script)), vid) && attempt.items == items
      ensures
        var met := Met(old(server.Now()), old(server.script));
        LaterBatches(old(server.script)) == [] ==> server.Now() == Pushed(met, vid, items) && server.script == []
      ensures Moved(old(held), held) && vid in held
    {
      hide *;
      ValidIs();
      NothingMoved(held, server.logs);
      var outcomes;
      outcomes, attempt := PushPlan(vid, plan, items);
      ghost var pushed := server.logs;
      verdict := VerdictOf(outcomes);
      if verdict != Denied {
        PullAll();
        GrowsTransitive(old(server.logs), pushed, server.logs);
        MovedHas(old(held), held, vid);
      }
    }

    /** One pass of the commit loop; `Ok(false)` asks for another. */
    method TryOnce(vid: VaultId, attemptNo: nat, build: Build, ghost before: seq<Attempt>)
      returns (r: Result<bool, BridgeError>, ghost attempts: seq<Attempt>)
      requires Valid() && |before| == attemptNo && EachFromItsMirror(before, build) && ClashedUntil(before, attemptNo)
      modifies `held, server, vaults.Values`cursor, vaults.Values`entities
      ensures Valid() && vaults == old(vaults) && Grows(old(server.logs), server.logs)
      ensures attemptNo <= |attempts| <= attemptNo + 1 && EachFromItsMirror(attempts, build)
      ensures ClashedUntil(attempts, |attempts| - 1)
      ensures r == Ok(true) ==>
        (LastAccepted(attempts) && AtHead(held, server.served, server.logs)) ||
        (held == old(held) && attempts == before && NothingToDo(held, vid, attemptNo, build))
      ensures r == Ok(false) ==> |attempts| == attemptNo + 1 && ClashedUntil(attempts, attemptNo + 1)
      ensures r == Ok(false) ==> vid in held && AtHead(held, server.served, server.logs)
      ensures r != Err(TooManyConflicts)
      ensures Refuses(RoleIn(old(roles), vid), r)
      ensures RoleIn(roles, vid) == RoleIn(old(roles), vid)
      ensures RoleIn(old(roles), vid) != Some(true) ==> attempts == before && unchanged(this) && unchanged(server)
      ensures OncePrepared(Prepared(old(held), RoleIn(old(roles), vid), vid, attemptNo, build), r, attempts)
      ensures
        var p := Prepared(old(held), RoleIn(old(roles), vid), vid, attemptNo, build);
        if p.Ok? && p.value.Some? then
          && |attempts| > 0
          && PushMet(attempts[|attempts| - 1], Met(old(server.Now()), old(server.script)), vid)
          && (LaterBatches(old(server.script)) == [] ==>
                && server.Now() == Pushed(Met(old(server.Now()), old(server.script)), vid, p.value.value.1)
                && server.script == [])
          && Moved(old(held), held)
        else held == old(held) && server.Now() == old(server.Now()) && server.script == old(server.script)
    {
      hide *;
      attempts := before;
      PreparedMeans(held, RoleIn(roles, vid), vid, attemptNo, build);
      NothingAttempted(Prepared(held, RoleIn(roles, vid), vid, attemptNo, build), before);
      NothingMoved(held, server.logs);
      ClashedSooner(before, attemptNo);
      ValidIs();
      var prepared := Prepare(vid, attemptNo, build);
      if prepared.Err? {
        r := Err(prepared.error);
        RefusesSame(RoleIn(roles, vid), prepared, r);
        return r, before;
      }
      if prepared.value.None? {
        r := Ok(true);
        RefusesSame(RoleIn(roles, vid), prepared, r);
        return r, before;
      }
      var (plan, items) := prepared.value.value;
      var verdict;
      ghost var attempt;
      verdict, attempt := PushRound(vid, plan, items);
      attempts := OneMoreAttempt(before, attempt, build);
      PassEnds(prepared, verdict, attempts);
      match verdict {
        case Denied => r := Err(Refused);
        case Landed => r := Ok(true);
        case Clashed => r := Ok(false);
      }
      RefusesSame(RoleIn(old(roles), vid), prepared, r);
    }

    /** After a conflict: the mirrors are at the head, then the list is read again. */
    method RefreshAfterConflict(vid: VaultId) returns (ghost sight: Sight)
      requires Valid() && vid in held && AtHead(held, server.served, server.logs)
      modifies this, server, vaults.Values
      ensures Valid() && Grows(old(server.logs), server.logs)
      ensures forall v :: v in vaults ==> vaults[v] in old(vaults.Values) || fresh(vaults[v])
      ensures SeenWell(sight) && sight.log <= LogIn(server.logs, vid)
      ensures vid in held ==> Follows(held[vid], sight)
      ensures
        var list := server.listing;
        && held == Relist(Listed(old(held), list), list, keyPair)
        && RoleIn(roles, vid) == RoleTold(list, vid, if IsListed(vid, list) then RoleIn(old(roles), vid) else None)
      ensures server.script == LaterBatches(old(server.script))
      ensures server.Now() == Met(old(server.Now()), old(server.script))
    {
      sight := SightOf(held, server.served, server.logs, vid);
      HeadIsSeenWell(held, server.served, server.logs, vid);
      ghost var list := RefreshMe();
      if IsListed(vid, list) {
        RelistKeepsOrStartsOver(Listed(old(held), list), list, keyPair, vid);
      } else {
        RelistAddsOnlyListed(Listed(old(held), list), list, keyPair, vid);
      }
    }

    /** A commit in its loop, attempt `n` ahead. */
    ghost predicate Going(vid: VaultId, n: nat, build: Build, attempts: seq<Attempt>, sight: Sight)
      reads this, server, vaults.Values
    {
      && Valid() && SightFits(held, server.logs, vid, sight, n)
      && |attempts| == n && EachFromItsMirror(attempts, build) && ClashedUntil(attempts, n)
    }

    lemma GoingAtFirst(vid: VaultId, build: Build)
      requires Valid()
      ensures Going(vid, 0, build, [], SightOf(held, server.served, server.logs, vid))
      ensures Grows(server.logs, server.logs) && PUSH_ATTEMPTS > 0
    {
      SightStarts(held, server.served, server.logs, vid);
    }

    lemma GoingMeans(vid: VaultId, n: nat, build: Build, attempts: seq<Attempt>, sight: Sight)
      requires Going(vid, n, build, attempts, sight)
      ensures Valid() && SightFits(held, server.logs, vid, sight, n)
      ensures |attempts| == n && EachFromItsMirror(attempts, build) && ClashedUntil(attempts, n)
      ensures ClashedUntil(attempts, n - 1)
    {
    }

    lemma GoesOn(vid: VaultId, n: nat, build: Build, attempts: seq<Attempt>, sight: Sight)
      requires Valid() && |attempts| == n && EachFromItsMirror(attempts, build) && ClashedUntil(attempts, n)
      requires SeenWell(sight) && sight.log <= LogIn(server.logs, vid) && (vid in held ==> Follows(held[vid], sight))
      ensures Going(vid, n, build, attempts, sight)
    {
    }

    /** An attempt, and the refresh that a conflict calls for. */
    method Round(vid: VaultId, attemptNo: nat, build: Build, ghost before: seq<Attempt>, ghost was: Sight)
      returns (r: Result<bool, BridgeError>, ghost attempts: seq<Attempt>, ghost sight: Sight)
      requires Going(vid, attemptNo, build, before, was)
      modifies this, server, vaults.Values
      ensures Valid() && Grows(old(server.logs), server.logs)
      ensures forall v :: v in vaults ==> vaults[v] in old(vaults.Values) || fresh(vaults[v])
      ensures attemptNo <= |attempts| <= attemptNo + 1 && EachFromItsMirror(attempts, build)
      ensures ClashedUntil(attempts, |attempts| - 1)
      ensures r == Ok(true) ==> Settled(held, server.served, server.logs, vid, attempts, build, sight)
      ensures r == Ok(false) ==> Going(vid, attemptNo + 1, build, attempts, sight) && attempts != []
      ensures r != Ok(false) ==> sight == was
      ensures r != Err(TooManyConflicts)
      ensures Refuses(RoleIn(old(roles), vid), r) && (r != Ok(false) ==> RoleIn(roles, vid) == RoleIn(old(roles), vid))
      ensures RoleIn(old(roles), vid) != Some(true) ==> attempts == before && unchanged(this) && unchanged(server)
    {
      hide *;
      GoingMeans(vid, attemptNo, build, before, was);
      sight := was;
      r, attempts := TryOnce(vid, attemptNo, build, before);
      if r == Ok(true) {
        PassSettles(old(held), old(server.logs), held, server.served, server.logs, vid, before, attempts, build, was);
      }
      if r == Ok(false) {
        ghost var logs := server.logs;
        sight := RefreshAfterConflict(vid);
        GrowsTransitive(old(server.logs), logs, server.logs);
        GoesOn(vid, attemptNo + 1, build, attempts, sight);
      }
    }

    /** Plan, push, and on a conflict refresh and plan again: three pushes at most. */
    method Commit(vid: VaultId, build: Build)
      returns (r: Result<(), BridgeError>, ghost attempts: seq<Attempt>, ghost sight: Sight)
      requires Valid()
      modifies this, server, vaults.Values
      ensures Valid() && Grows(old(server.logs), server.logs)
      ensures |attempts| <= PUSH_ATTEMPTS && EachFromItsMirror(attempts, build)
      ensures ClashedUntil(attempts, |attempts| - 1)
      ensures r.Ok? ==> Settled(held, server.served, server.logs, vid, attempts, build, sight)
      ensures attempts == [] ==> sight == SightOf(old(held), old(server.served), old(server.logs), vid)
      ensures r == Err(TooManyConflicts) ==> |attempts| == PUSH_ATTEMPTS && ClashedUntil(attempts, PUSH_ATTEMPTS)
      ensures r != Err(TooManyConflicts) ==> Refuses(RoleIn(roles, vid), r)
      ensures RoleIn(old(roles), vid) != Some(true) ==>
        Refuses(RoleIn(old(roles), vid), r) && attempts == [] && unchanged(this) && unchanged(server)
    {
      hide *;
      attempts, sight := [], SightOf(held, server.served, server.logs, vid);
      GoingAtFirst(vid, build);
      for attemptNo := 0 to PUSH_ATTEMPTS
        invariant Going(vid, attemptNo, build, attempts, sight) && Grows(old(server.logs), server.logs)
        invariant forall v :: v in vaults ==> vaults[v] in old(vaults.Values) || fresh(vaults[v])
        invariant attempts == [] ==> sight == SightOf(old(held), old(server.served), old(server.logs), vid)
        invariant attemptNo == 0 ==> unchanged(this) && unchanged(server) && attempts == []
        invariant attemptNo > 0 ==> RoleIn(old(roles), vid) == Some(true)
      {
        var settled;
        ghost var role, logs := RoleIn(roles, vid), server.logs;
        GoingMeans(vid, attemptNo, build, attempts, sight);
        settled, attempts, sight := Round(vid, attemptNo, build, attempts, sight);
        RoleSays(role, settled);
        PassIs(settled);
        GrowsTransitive(old(server.logs), logs, server.logs);
        if settled != Ok(false) {
          r := if settled.Err? then Err(settled.error) else Ok(());
          RefusesSame(role, settled, r);
          return;
        }
      }
      GoingMeans(vid, PUSH_ATTEMPTS, build, attempts, sight);
      r := Err(TooManyConflicts);
    }

    /** A write request: read the list again when it is stale, pull, then commit. */
    method Edit(vid: VaultId, stale: bool, build: Build)
      returns (r: Result<(), BridgeError>, ghost attempts: seq<Attempt>, ghost sight: Sight)
      requires Valid()
      modifies this, server, vaults.Values
      ensures Valid() && Grows(old(server.logs), server.logs)
      ensures |attempts| <= PUSH_ATTEMPTS && EachFromItsMirror(attempts, build)
      ensures r.Ok? ==> Settled(held, server.served, server.logs, vid, attempts, build, sight)
      ensures r.Ok? ==> LastAccepted(attempts) || SeenWell(sight)
      ensures r != Err(TooManyConflicts) ==> Refuses(RoleIn(roles, vid), r)
      ensures !stale && RoleIn(old(roles), vid) != Some(true) ==> Refuses(RoleIn(old(roles), vid), r) && attempts == []
    {
      hide MirrorOk, AllMirrorsOk, LogsOk, EachFromItsMirror, AtHead, Settled, LastAccepted, SightOf, Moved, Shown,
        Refuses;
      if stale {
        ghost var list := RefreshMe();
      }
      PullAll();
      HeadIsSeenWell(held, server.served, server.logs, vid);
      r, attempts, sight := Commit(vid, build);
      SettledIsSeen(held, server.served, server.logs, vid, attempts, build, sight);
    }
  }
}
