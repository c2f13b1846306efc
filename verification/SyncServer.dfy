/** The server's three answers to the bridge: a page of rows, the outcomes of a
    push, and the list of vaults. Other writers act before every request. */
module SyncServer {
  import opened Wrappers
  import opened SyncLog
  import opened VaultMirror

  const MAX_BATCH: nat := 500

  /** A vault key sealed to a key pair; anything else does not open. */
  datatype SealedKey = SealedTo(owner: nat, key: Key) | Broken

  /** One line of `/bridge/me`. */
  datatype BridgeVault = BridgeVault(
    id: VaultId, name: string, writable: bool, keyVersion: int, sealedKey: Option<SealedKey>)

  type Logs = map<VaultId, Log>

  function LogIn(logs: Logs, v: VaultId): Log { if v in logs then logs[v] else [] }

  ghost predicate LogsOk(logs: Logs) { forall v :: LogOk(LogIn(logs, v)) }

  ghost predicate Grows(a: Logs, b: Logs) { forall v :: LogIn(a, v) <= LogIn(b, v) }

  datatype Row = Row(vault: VaultId, entry: Entry)

  function RowsOf(rows: seq<Row>, v: VaultId): seq<Entry> {
    if rows == [] then []
    else
      var last := rows[|rows| - 1];
      RowsOf(rows[..|rows| - 1], v) + if last.vault == v then [last.entry] else []
  }

  datatype Pulled = Pulled(rows: seq<Row>, cursors: map<VaultId, nat>, hasMore: bool)

  /** The rows of one vault are its standing rows after `since`, up to `next`. */
  ghost predicate PageFor(log: Log, rows: seq<Row>, v: VaultId, since: nat, next: nat) {
    since <= next <= |log| && RowsOf(rows, v) == Survivors(log, since, next)
  }

  ghost predicate Advanced(asked: map<VaultId, nat>, cursors: map<VaultId, nat>, v: VaultId) {
    v in asked && v in cursors && asked[v] < cursors[v]
  }

  ghost predicate OnlyAsked(asked: map<VaultId, nat>, r: Pulled) {
    && (forall v :: v in r.cursors <==> v in asked)
    && (forall k :: 0 <= k < |r.rows| ==> r.rows[k].vault in asked)
  }

  ghost predicate PagesHold(logs: Logs, asked: map<VaultId, nat>, r: Pulled) {
    forall v :: v in asked && v in r.cursors ==> PageFor(LogIn(logs, v), r.rows, v, asked[v], r.cursors[v])
  }

  ghost predicate HeadsReached(logs: Logs, served: set<VaultId>, r: Pulled) {
    forall v :: v in r.cursors && v in served ==> r.cursors[v] == |LogIn(logs, v)|
  }

  ghost predicate SomeProgress(asked: map<VaultId, nat>, r: Pulled) {
    exists v :: Advanced(asked, r.cursors, v)
  }

  /** What the protocol promises about a pull answer. */
  ghost predicate PullAnswers(logs: Logs, served: set<VaultId>, asked: map<VaultId, nat>, r: Pulled) {
    && OnlyAsked(asked, r)
    && PagesHold(logs, asked, r)
    && (!r.hasMore ==> HeadsReached(logs, served, r))
    && (r.hasMore || r.rows != [] ==> SomeProgress(asked, r))
  }

  lemma {:induction false} RowsOfAbsent(rows: seq<Row>, v: VaultId)
    requires forall k :: 0 <= k < |rows| ==> rows[k].vault != v
    ensures RowsOf(rows, v) == []
  {
    if rows != [] { RowsOfAbsent(rows[..|rows| - 1], v); }
  }

  /** `all` extends `rows` with the share of vault `v` that ends at `next`. */
  ghost predicate Shared(rows: seq<Row>, v: VaultId, log: Log, since: nat, all: seq<Row>, next: nat) {
    && since <= next <= |log|
    && (forall k :: 0 <= k < |all| ==> (k < |rows| && all[k] == rows[k]) || all[k].vault == v)
    && RowsOf(all, v) == RowsOf(rows, v) + Survivors(log, since, next)
    && (forall u :: u != v ==> RowsOf(all, u) == RowsOf(rows, u))
    && (all != rows ==> since < next)
  }

  /** Adding one vault's share to an answer. */
  lemma AnswerStep(
    logs: Logs, served: set<VaultId>, asked: map<VaultId, nat>, r: Pulled,
    v: VaultId, since: nat, all: seq<Row>, next: nat, more: bool)
    requires PullAnswers(logs, served, asked, r) && v !in asked
    requires Shared(r.rows, v, LogIn(logs, v), since, all, next)
    requires r.hasMore ==> more
    requires more && !r.hasMore && r.rows == [] ==> since < next
    requires !more && v in served ==> next == |LogIn(logs, v)|
    ensures PullAnswers(logs, served, asked[v := since], Pulled(all, r.cursors[v := next], more))
  {
    assert RowsOf(all, v) == Survivors(LogIn(logs, v), since, next) by { RowsOfAbsent(r.rows, v); }
    var now, answer := asked[v := since], Pulled(all, r.cursors[v := next], more);
    assert PagesHold(logs, now, answer) by {
      forall u | u in now && u in answer.cursors
        ensures PageFor(LogIn(logs, u), all, u, now[u], answer.cursors[u])
      {
        if u != v { assert PageFor(LogIn(logs, u), r.rows, u, asked[u], r.cursors[u]); }
      }
    }
    assert OnlyAsked(now, answer) by {
      forall k | 0 <= k < |all|
        ensures all[k].vault in now
      {
        if all[k].vault != v { assert r.rows[k].vault in asked; }
      }
    }
    if more || all != [] {
      if since < next {
        assert Advanced(now, answer.cursors, v);
      } else {
        var u :| Advanced(asked, r.cursors, u);
        assert Advanced(now, answer.cursors, u);
      }
    }
  }

  /** What somebody else does between two of our requests. */
  datatype Event =
    | Wrote(vault: VaultId, write: Write)
    | Relisted(vaults: seq<BridgeVault>)
    | Gated(gateOf: VaultId, gate: Gate)
    | Scoped(visible: set<VaultId>)

  /** All of the server. */
  datatype World = World(logs: Logs, gates: map<VaultId, Gate>, served: set<VaultId>, listing: seq<BridgeVault>)
  {
    function GateOf(v: VaultId): Gate { if v in gates then gates[v] else Gate(0, {}) }
  }

  function Happened(w: World, e: Event): World {
    match e
    case Wrote(v, x) => w.(logs := w.logs[v := Append(LogIn(w.logs, v), x)])
    case Relisted(vaults) => w.(listing := vaults)
    case Gated(v, gate) => w.(gates := w.gates[v := gate])
    case Scoped(visible) => w.(served := visible)
  }

  function HappenedAll(w: World, batch: seq<Event>): World {
    if batch == [] then w else Happened(HappenedAll(w, batch[..|batch| - 1]), batch[|batch| - 1])
  }

  /** The batch that comes before the next request, and what is left then. */
  function NextBatch(script: seq<seq<Event>>): seq<Event> { if script == [] then [] else script[0] }

  function LaterBatches(script: seq<seq<Event>>): seq<seq<Event>> { if script == [] then [] else script[1..] }

  lemma RowsOfAppend(rows: seq<Row>, row: Row, v: VaultId)
    ensures RowsOf(rows + [row], v) == RowsOf(rows, v) + if row.vault == v then [row.entry] else []
  {
    assert (rows + [row])[..|rows|] == rows;
  }

  lemma ReplaceLog(logs: Logs, v: VaultId, log: Log)
    requires LogsOk(logs) && LogOk(log) && LogIn(logs, v) <= log
    ensures LogsOk(logs[v := log]) && Grows(logs, logs[v := log])
  {
    var after := logs[v := log];
    forall u
      ensures LogOk(LogIn(after, u))
    {
      assert LogOk(LogIn(logs, u));
    }
  }

  class Server {
    var logs: Logs
    var gates: map<VaultId, Gate>
    var served: set<VaultId>
    var listing: seq<BridgeVault>
    /** What others do, one batch before each request. */
    var script: seq<seq<Event>>

    function Now(): (w: World)
      reads this
      ensures w.logs == logs && w.gates == gates && w.served == served && w.listing == listing
    {
      World(logs, gates, served, listing)
    }

    ghost predicate Valid()
      reads this`logs
    {
      LogsOk(logs)
    }

    constructor (script: seq<seq<Event>>)
      ensures Valid() && Now() == World(map[], map[], {}, []) && this.script == script
    {
      logs, gates, served, listing := map[], map[], {}, [];
      this.script := script;
    }

    /** The rest of the world moves. */
    method Interfere()
      requires Valid()
      modifies this
      ensures Valid() && Grows(old(logs), logs)
      ensures script == LaterBatches(old(script)) && Now() == HappenedAll(old(Now()), NextBatch(old(script)))
    {
      if script == [] { return; }
      var batch := script[0];
      script := script[1..];
      for i := 0 to |batch|
        invariant Valid() && Grows(old(logs), logs) && script == old(script)[1..]
        invariant Now() == HappenedAll(old(Now()), batch[..i])
      {
        assert batch[..i + 1][..i] == batch[..i];
        match batch[i]
        case Wrote(v, w) =>
          assert LogOk(LogIn(logs, v));
          AppendKeepsLogOk(LogIn(logs, v), w);
          ReplaceLog(logs, v, Append(LogIn(logs, v), w));
          logs := logs[v := Append(LogIn(logs, v), w)];
        case Relisted(vaults) => listing := vaults;
        case Gated(v, gate) => gates := gates[v := gate];
        case Scoped(visible) => served := visible;
      }
      assert batch[..|batch|] == batch;
    }

    /** At most `limit` table rows of `log` after `since`, and where they end. */
    method ReadPage(log: Log, since: nat, limit: nat) returns (page: seq<Entry>, next: nat)
      requires since <= |log| && limit > 0
      ensures since <= next <= |log| && page == Survivors(log, since, next) && |page| <= limit
      ensures next < |log| ==> |page| == limit
      ensures page != [] ==> since < next
    {
      page, next := [], since;
      while next < |log| && |page| < limit
        invariant since <= next <= |log| && page == Survivors(log, since, next) && |page| <= limit
        invariant page != [] ==> since < next
      {
        if Latest(log, next) {
          page := page + [log[next]];
        }
        next := next + 1;
      }
    }

    /** One vault's share of an answer: nothing once the batch is full or the
        vault is not ours to read, otherwise as many rows as still fit. */
    method Serve(rows: seq<Row>, hasMore: bool, v: VaultId, log: Log, since: nat)
      returns (all: seq<Row>, next: nat, more: bool)
      requires |rows| <= MAX_BATCH && since <= |log|
      ensures |all| <= MAX_BATCH && Shared(rows, v, log, since, all, next)
      ensures hasMore ==> more
      ensures more && !hasMore && rows == [] ==> since < next
      ensures !more && v in served ==> next == |log|
    {
      all, next, more := rows, since, hasMore;
      if !hasMore && v in served {
        if |rows| == MAX_BATCH {
          more := true;
        } else {
          var page;
          page, next := ReadPage(log, since, MAX_BATCH - |rows|);
          all := AddPage(rows, v, page);
          more := next < |log|;
        }
      }
    }

    /** Fill one answer vault by vault, until the batch is full. */
    method Answer(asked: map<VaultId, nat>) returns (r: Pulled)
      requires forall v :: v in asked ==> asked[v] <= |LogIn(logs, v)|
      ensures PullAnswers(logs, served, asked, r)
    {
      r := Pulled([], map[], false);
      var done: map<VaultId, nat> := map[];
      while exists v :: v in asked && v !in done
        invariant forall v :: v in done ==> v in asked && done[v] == asked[v]
        invariant |r.rows| <= MAX_BATCH && PullAnswers(logs, served, done, r)
        decreases asked.Keys - done.Keys
      {
        var v :| v in asked && v !in done;
        var all, next, more := Serve(r.rows, r.hasMore, v, LogIn(logs, v), asked[v]);
        AnswerStep(logs, served, done, r, v, asked[v], all, next, more);
        done := done[v := asked[v]];
        r := Pulled(all, r.cursors[v := next], more);
      }
      assert done == asked;
    }

    method Pull(asked: map<VaultId, nat>) returns (r: Pulled)
      requires Valid()
      requires forall v :: v in asked ==> asked[v] <= |LogIn(logs, v)|
      modifies this
      ensures Valid() && Grows(old(logs), logs)
      ensures script == LaterBatches(old(script)) && Now() == HappenedAll(old(Now()), NextBatch(old(script)))
      ensures PullAnswers(logs, served, asked, r)
    {
      Interfere();
      assert forall v :: LogIn(old(logs), v) <= LogIn(logs, v);
      r := Answer(asked);
    }

    static method AddPage(rows: seq<Row>, v: VaultId, page: seq<Entry>) returns (all: seq<Row>)
      ensures |all| == |rows| + |page| && (page == [] ==> all == rows)
      ensures forall k :: 0 <= k < |all| ==> (k < |rows| && all[k] == rows[k]) || all[k].vault == v
      ensures RowsOf(all, v) == RowsOf(rows, v) + page
      ensures forall u :: u != v ==> RowsOf(all, u) == RowsOf(rows, u)
    {
      all := rows;
      for i := 0 to |page|
        invariant |all| == |rows| + i && (i == 0 ==> all == rows)
        invariant forall k :: 0 <= k < |all| ==> (k < |rows| && all[k] == rows[k]) || all[k].vault == v
        invariant RowsOf(all, v) == RowsOf(rows, v) + page[..i]
        invariant forall u :: u != v ==> RowsOf(all, u) == RowsOf(rows, u)
      {
        forall u { RowsOfAppend(all, Row(v, page[i]), u); }
        all := all + [Row(v, page[i])];
      }
    }

    /** The items are settled one by one in a single transaction. */
    method Push(v: VaultId, items: seq<Item>) returns (outcomes: seq<Outcome>, ghost before: Log, ghost gate: Gate)
      requires Valid()
      modifies this
      ensures Valid() && Grows(old(logs), logs)
      ensures LogOk(before) && LogIn(old(logs), v) <= before <= LogIn(logs, v)
      ensures LogIn(logs, v) == PushItems(before, gate, items).0
      ensures outcomes == PushItems(before, gate, items).1
      ensures
        var met := HappenedAll(old(Now()), NextBatch(old(script)));
        && before == LogIn(met.logs, v) && gate == met.GateOf(v)
        && Now() == met.(logs := met.logs[v := PushItems(before, gate, items).0])
      ensures script == LaterBatches(old(script))
    {
      Interfere();
      before, gate := LogIn(logs, v), Now().GateOf(v);
      assert LogOk(before);
      PushGrowsLog(before, gate, items);
      ReplaceLog(logs, v, PushItems(before, gate, items).0);
      var (after, results) := PushItems(LogIn(logs, v), if v in gates then gates[v] else Gate(0, {}), items);
      logs := logs[v := after];
      outcomes := results;
    }

    method Me() returns (vaults: seq<BridgeVault>)
      requires Valid()
      modifies this
      ensures Valid() && Grows(old(logs), logs) && vaults == listing
      ensures script == LaterBatches(old(script)) && Now() == HappenedAll(old(Now()), NextBatch(old(script)))
    {
      Interfere();
      vaults := listing;
    }
  }
}
