/** A mirror between pages. Others write between any two requests, so each page
    is read from a longer log: what the mirror shows then, and exactly when that
    is the log as it stood at the cursor. */
module PagedPull {
  import opened Wrappers
  import opened Schema
  import opened SyncLog
  import opened VaultMirror

  /** What mirror `m` shows after a page of `log` that ends at `c`. */
  function Pulled(m: Mirror, log: Log, c: nat): map<Id, Entity>
    requires c <= |log|
  {
    ApplyRows(m, Survivors(log, m.cursor, c)).entities
  }

  /** A row of the stretch `[lo, c)` that no later write has superseded. */
  predicate StandsIn(log: Log, lo: nat, c: nat, id: Id, i: nat)
    requires c <= |log|
  {
    lo <= i < c && log[i].id == id && Latest(log, i)
  }

  ghost predicate Standing(log: Log, lo: nat, c: nat, id: Id)
    requires c <= |log|
  {
    exists i: nat :: StandsIn(log, lo, c, id, i)
  }

  predicate WrittenIn(log: Log, lo: nat, c: nat, id: Id)
    requires c <= |log|
  {
    exists i :: lo <= i < c && log[i].id == id
  }

  /** `id` reads in `a` as in `b`. */
  predicate SameAt(a: map<Id, Entity>, b: map<Id, Entity>, id: Id) {
    (id in a <==> id in b) && (id in a ==> a[id] == b[id])
  }

  lemma StandingLonger(log: Log, lo: nat, b: nat, id: Id)
    requires lo <= b < |log| && Standing(log, lo, b, id)
    ensures Standing(log, lo, b + 1, id)
  {
    var i: nat :| StandsIn(log, lo, b, id, i);
    var c := b + 1;
    assert StandsIn(log, lo, c, id, i);
  }

  lemma LastIsNotOurs(log: Log, lo: nat, b: nat, id: Id)
    requires lo <= b < |log| && !Standing(log, lo, b + 1, id)
    ensures !(Latest(log, b) && log[b].id == id)
  {
    var c := b + 1;
    assert !StandsIn(log, lo, c, id, b);
  }

  /** A row of another entity leaves `id` alone, a superseded one leaves everything alone. */
  lemma RowOfAnother(m: Mirror, log: Log, b: nat, id: Id)
    requires m.cursor <= b < |log| && !(Latest(log, b) && log[b].id == id)
    ensures SameAt(Pulled(m, log, b + 1), Pulled(m, log, b), id)
  {
    SurvivorsStep(m, log, m.cursor, b);
  }

  lemma SameAtTrans(a: map<Id, Entity>, b: map<Id, Entity>, c: map<Id, Entity>, id: Id)
    requires SameAt(a, b, id) && SameAt(b, c, id)
    ensures SameAt(a, c, id)
  {
  }

  lemma {:induction false} PulledKeeps(m: Mirror, log: Log, c: nat, id: Id)
    requires m.cursor <= c <= |log| && !Standing(log, m.cursor, c, id)
    ensures SameAt(Pulled(m, log, c), m.entities, id)
    decreases c
  {
    if m.cursor < c {
      hide *;
      var b := c - 1;
      if Standing(log, m.cursor, b, id) { StandingLonger(log, m.cursor, b, id); }
      PulledKeeps(m, log, b, id);
      LastIsNotOurs(log, m.cursor, b, id);
      RowOfAnother(m, log, b, id);
      SameAtTrans(Pulled(m, log, c), Pulled(m, log, b), m.entities, id);
    }
  }

  lemma PulledKey(m: Mirror, log: Log, c: nat)
    requires c <= |log|
    ensures ApplyRows(m, Survivors(log, m.cursor, c)).key == m.key
    ensures ApplyRows(m, Survivors(log, m.cursor, c)).keyVersion == m.keyVersion
  {
    ReplayKeepsKey(m, Survivors(log, m.cursor, c));
  }

  /** `id` reads in `entities` as row `e` left it. */
  predicate ReadsAs(entities: map<Id, Entity>, e: Entry, key: Option<Key>, keyVersion: int, id: Id) {
    if e.deleted then id !in entities else id in entities && entities[id] == View(e, key, keyVersion)
  }

  lemma NewestIsShown(m: Mirror, log: Log, b: nat)
    requires m.cursor <= b < |log| && Latest(log, b)
    ensures ReadsAs(Pulled(m, log, b + 1), log[b], m.key, m.keyVersion, log[b].id)
  {
    SurvivorsStep(m, log, m.cursor, b);
    PulledKey(m, log, b);
  }

  lemma LaterRowIsAnother(log: Log, lo: nat, b: nat, id: Id, i: nat)
    requires b < |log| && StandsIn(log, lo, b + 1, id, i) && i < b
    ensures log[b].id != id && StandsIn(log, lo, b, id, i)
  {
  }

  lemma ReadsOn(a: map<Id, Entity>, b: map<Id, Entity>, e: Entry, key: Option<Key>, keyVersion: int, id: Id)
    requires ReadsAs(a, e, key, keyVersion, id) && SameAt(b, a, id)
    ensures ReadsAs(b, e, key, keyVersion, id)
  {
  }

  lemma StandsParts(log: Log, lo: nat, c: nat, id: Id, i: nat)
    requires c <= |log| && StandsIn(log, lo, c, id, i)
    ensures lo <= i < c && log[i].id == id && Latest(log, i)
  {
  }

  /** An entity written in the stretch and not since is shown as its newest row. */
  lemma {:induction false} PulledShows(m: Mirror, log: Log, c: nat, id: Id, i: nat)
    requires m.cursor <= c <= |log| && StandsIn(log, m.cursor, c, id, i)
    ensures ReadsAs(Pulled(m, log, c), log[i], m.key, m.keyVersion, id)
    decreases c
  {
    hide *;
    StandsParts(log, m.cursor, c, id, i);
    var b := c - 1;
    if i < b {
      LaterRowIsAnother(log, m.cursor, b, id, i);
      PulledShows(m, log, b, id, i);
      RowOfAnother(m, log, b, id);
      ReadsOn(Pulled(m, log, b), Pulled(m, log, c), log[i], m.key, m.keyVersion, id);
    } else {
      NewestIsShown(m, log, b);
    }
  }

  /** The last write of `id` before `c`. */
  lemma {:induction false} LastWrite(log: Log, lo: nat, c: nat, id: Id) returns (j: nat)
    requires c <= |log| && WrittenIn(log, lo, c, id)
    ensures lo <= j < c && log[j].id == id && forall k :: j < k < c ==> log[k].id != id
    decreases c
  {
    if log[c - 1].id == id {
      j := c - 1;
    } else {
      j := LastWrite(log, lo, c - 1, id);
    }
  }

  /** The replay shows an entity as its last write before `c` left it. */
  lemma ReplayShows(log: Log, c: nat, key: Option<Key>, keyVersion: int, id: Id, j: nat)
    requires c <= |log| && j < c && log[j].id == id && forall k :: j < k < c ==> log[k].id != id
    ensures
      var full := Replay(log[..c], key, keyVersion);
      if log[j].deleted then id !in full else id in full && full[id] == View(log[j], key, keyVersion)
  {
    ReplayIsFaithful(log, key, keyVersion, c);
    assert Latest(log[..c], j);
  }

  /** Entities not written in between read as before. */
  lemma {:induction false} ReplayUnwritten(log: Log, lo: nat, c: nat, key: Option<Key>, keyVersion: int, id: Id)
    requires lo <= c <= |log| && !WrittenIn(log, lo, c, id)
    ensures SameAt(Replay(log[..c], key, keyVersion), Replay(log[..lo], key, keyVersion), id)
    decreases c
  {
    if lo < c {
      ReplayUnwritten(log, lo, c - 1, key, keyVersion, id);
      assert log[..c][..c - 1] == log[..c - 1];
      ReplayKeepsKey(Mirror(keyVersion, key, 0, map[]), log[..c - 1]);
      assert log[c - 1].id != id;
    }
  }

  /** What is shown carries an older version than any write after the cursor. */
  lemma ShownIsOlder(m: Mirror, log: Log, id: Id, j: nat)
    requires LogOk(log) && Agrees(m, log) && id in m.entities && m.cursor <= j < |log| && log[j].id == id
    ensures m.entities[id].version < log[j].version
  {
    var i := ShownRow(m, log, id);
  }

  /** Nothing was there to see before, and nothing is there to see now. */
  predicate NeverSeen(m: Mirror, log: Log, c: nat, id: Id)
    requires c <= |log|
  {
    id !in m.entities && id !in Replay(log[..c], m.key, m.keyVersion)
  }

  lemma WrittenReadsAlikeExactly(m: Mirror, log: Log, c: nat, id: Id)
    requires LogOk(log) && Agrees(m, log) && m.cursor <= c <= |log| && WrittenIn(log, m.cursor, c, id)
    ensures SameAt(Pulled(m, log, c), Replay(log[..c], m.key, m.keyVersion), id) <==>
              Standing(log, m.cursor, c, id) || NeverSeen(m, log, c, id)
  {
    var j := LastWrite(log, m.cursor, c, id);
    ReplayShows(log, c, m.key, m.keyVersion, id, j);
    if i: nat :| StandsIn(log, m.cursor, c, id, i) {
      PulledShows(m, log, c, id, i);
    } else {
      PulledKeeps(m, log, c, id);
      if id in m.entities { ShownIsOlder(m, log, id, j); }
    }
  }

  /** `id` was shown as the log up to the cursor has it. */
  ghost predicate WasRight(m: Mirror, log: Log, id: Id)
    requires m.cursor <= |log|
  {
    SameAt(m.entities, Replay(log[..m.cursor], m.key, m.keyVersion), id)
  }

  lemma SameAtSides(
    a: map<Id, Entity>, b: map<Id, Entity>, c: map<Id, Entity>, d: map<Id, Entity>, id: Id)
    requires SameAt(a, b, id) && SameAt(c, d, id)
    ensures SameAt(a, c, id) <==> SameAt(b, d, id)
  {
  }

  lemma NotWrittenReadsAlikeExactly(m: Mirror, log: Log, c: nat, id: Id)
    requires m.cursor <= c <= |log| && !WrittenIn(log, m.cursor, c, id)
    ensures SameAt(Pulled(m, log, c), Replay(log[..c], m.key, m.keyVersion), id) <==> WasRight(m, log, id)
  {
    PulledKeeps(m, log, c, id);
    ReplayUnwritten(log, m.cursor, c, m.key, m.keyVersion, id);
    SameAtSides(Pulled(m, log, c), m.entities, Replay(log[..c], m.key, m.keyVersion),
                Replay(log[..m.cursor], m.key, m.keyVersion), id);
  }

  lemma AlikeEverywhere(a: map<Id, Entity>, b: map<Id, Entity>)
    requires forall id: Id :: SameAt(a, b, id)
    ensures a == b
  {
    forall id: Id
      ensures id in a <==> id in b
      ensures id in a && id in b ==> a[id] == b[id]
    {
      assert SameAt(a, b, id);
    }
    assert a.Keys == b.Keys;
  }

  /** The condition on one entity. Written in the stretch: the page has its
      newest row, or there was nothing to see before and there is nothing at
      the end. Not written there: it was right before. */
  ghost predicate RightAfter(m: Mirror, log: Log, c: nat, id: Id)
    requires m.cursor <= |log| && c <= |log|
  {
    if WrittenIn(log, m.cursor, c, id) then Standing(log, m.cursor, c, id) || NeverSeen(m, log, c, id)
    else WasRight(m, log, id)
  }

  lemma AlikeAtExactly(m: Mirror, log: Log, c: nat, id: Id)
    requires LogOk(log) && Agrees(m, log) && m.cursor <= c <= |log|
    ensures SameAt(Pulled(m, log, c), Replay(log[..c], m.key, m.keyVersion), id) <==> RightAfter(m, log, c, id)
  {
    if WrittenIn(log, m.cursor, c, id) {
      WrittenReadsAlikeExactly(m, log, c, id);
    } else {
      NotWrittenReadsAlikeExactly(m, log, c, id);
    }
  }

  lemma AlikeExactly(a: map<Id, Entity>, b: map<Id, Entity>)
    ensures a == b <==> forall id: Id :: SameAt(a, b, id)
  {
    if forall id: Id :: SameAt(a, b, id) { AlikeEverywhere(a, b); }
  }

  /** Exactly when a page taken by any mirror the bridge may hold, from a log
      that may have grown since the page before, leaves it showing the log up to
      the end of the page. */
  lemma PageIsReplayExactly(m: Mirror, log: Log, c: nat)
    requires LogOk(log) && Agrees(m, log) && m.cursor <= c <= |log|
    ensures Pulled(m, log, c) == Replay(log[..c], m.key, m.keyVersion) <==>
              forall id: Id :: RightAfter(m, log, c, id)
  {
    var mine, full := Pulled(m, log, c), Replay(log[..c], m.key, m.keyVersion);
    forall id: Id
      ensures SameAt(mine, full, id) <==> RightAfter(m, log, c, id)
    {
      AlikeAtExactly(m, log, c, id);
    }
    hide *;
    AlikeExactly(mine, full);
  }

  // ----- any number of pages -----

  /** The log as the server held it when it answered, and where the page ended. */
  datatype Page = Page(log: Log, end: nat)

  predicate Bounded(pages: seq<Page>) { forall i :: 0 <= i < |pages| ==> pages[i].end <= |pages[i].log| }

  function EndOf(pages: seq<Page>): nat { if pages == [] then 0 else pages[|pages| - 1].end }

  /** Logs only grow and cursors never go back. */
  ghost predicate PagesOk(pages: seq<Page>, log: Log) {
    && Bounded(pages)
    && (forall i, j :: 0 <= i <= j < |pages| ==> pages[i].log <= pages[j].log && pages[i].end <= pages[j].end)
    && forall i :: 0 <= i < |pages| ==> pages[i].log <= log
  }

  /** The mirror after the pages, started empty under one key. */
  function Paged(key: Option<Key>, keyVersion: int, pages: seq<Page>): Mirror
    requires Bounded(pages)
  {
    if pages == [] then Mirror(keyVersion, key, 0, map[])
    else
      var before, page := Paged(key, keyVersion, pages[..|pages| - 1]), pages[|pages| - 1];
      ApplyRows(before, Survivors(page.log, before.cursor, page.end)).(cursor := page.end)
  }

  /** The row of `id` that the last page to serve one served. */
  ghost function Served(pages: seq<Page>, id: Id): Option<Entry>
    requires Bounded(pages)
  {
    if pages == [] then None
    else
      var init, page := pages[..|pages| - 1], pages[|pages| - 1];
      if Standing(page.log, EndOf(init), page.end, id) then Current(page.log, id) else Served(init, id)
  }

  /** `entities` shows of `id` what row `e` says. */
  predicate Shows(entities: map<Id, Entity>, e: Option<Entry>, key: Option<Key>, keyVersion: int, id: Id) {
    if e.None? then id !in entities else ReadsAs(entities, e.value, key, keyVersion, id)
  }

  lemma PagesInit(pages: seq<Page>, log: Log)
    requires PagesOk(pages, log) && pages != []
    ensures
      var init, page := pages[..|pages| - 1], pages[|pages| - 1];
      PagesOk(init, page.log) && PagesOk(init, log) && EndOf(init) <= page.end <= |page.log| && page.log <= log
  {
  }

  lemma {:induction false} PagedKey(key: Option<Key>, keyVersion: int, pages: seq<Page>)
    requires Bounded(pages)
    ensures
      var m := Paged(key, keyVersion, pages);
      m.key == key && m.keyVersion == keyVersion && m.cursor == EndOf(pages)
  {
    if pages != [] {
      var before, page := Paged(key, keyVersion, pages[..|pages| - 1]), pages[|pages| - 1];
      PagedKey(key, keyVersion, pages[..|pages| - 1]);
      ReplayKeepsKey(before, Survivors(page.log, before.cursor, page.end));
    }
  }

  lemma StandingIsCurrent(log: Log, lo: nat, c: nat, id: Id, i: nat)
    requires c <= |log| && StandsIn(log, lo, c, id, i)
    ensures Current(log, id) == Some(log[i])
  {
    var e := Current(log, id);
    var k :| 0 <= k < |log| && log[k] == e.value && e.value.id == id && Latest(log, k);
  }

  lemma PagedStep(key: Option<Key>, keyVersion: int, pages: seq<Page>)
    requires Bounded(pages) && pages != []
    ensures
      var init, page := pages[..|pages| - 1], pages[|pages| - 1];
      var before := Paged(key, keyVersion, init);
      && Bounded(init) && before.key == key && before.keyVersion == keyVersion && before.cursor == EndOf(init)
      && page.end <= |page.log|
      && Paged(key, keyVersion, pages).entities == Pulled(before, page.log, page.end)
  {
    PagedKey(key, keyVersion, pages[..|pages| - 1]);
  }

  lemma ServedStep(pages: seq<Page>, id: Id)
    requires Bounded(pages) && pages != []
    ensures
      var init, page := pages[..|pages| - 1], pages[|pages| - 1];
      && Bounded(init) && page.end <= |page.log|
      && Served(pages, id) ==
           if Standing(page.log, EndOf(init), page.end, id) then Current(page.log, id) else Served(init, id)
  {
  }

  lemma ShowsOn(
    a: map<Id, Entity>, b: map<Id, Entity>, e: Option<Entry>, key: Option<Key>, keyVersion: int, id: Id)
    requires Shows(a, e, key, keyVersion, id) && SameAt(b, a, id)
    ensures Shows(b, e, key, keyVersion, id)
  {
  }

  lemma PageShows(m: Mirror, log: Log, c: nat, id: Id)
    requires m.cursor <= c <= |log| && Standing(log, m.cursor, c, id)
    ensures Shows(Pulled(m, log, c), Current(log, id), m.key, m.keyVersion, id)
  {
    var i: nat :| StandsIn(log, m.cursor, c, id, i);
    StandingIsCurrent(log, m.cursor, c, id, i);
    PulledShows(m, log, c, id, i);
  }

  /** Between pages a mirror shows of each entity the row last served of it,
      and nothing of an entity no page served. */
  lemma {:induction false} PagedShowsServed(
    key: Option<Key>, keyVersion: int, pages: seq<Page>, log: Log, id: Id)
    requires PagesOk(pages, log)
    ensures Bounded(pages) && Shows(Paged(key, keyVersion, pages).entities, Served(pages, id), key, keyVersion, id)
  {
    if pages != [] {
      var init, page := pages[..|pages| - 1], pages[|pages| - 1];
      PagesInit(pages, log);
      PagedShowsServed(key, keyVersion, init, log, id);
      PagedStep(key, keyVersion, pages);
      ServedStep(pages, id);
      hide *;
      var before := Paged(key, keyVersion, init);
      if Standing(page.log, EndOf(init), page.end, id) {
        PageShows(before, page.log, page.end, id);
      } else {
        PulledKeeps(before, page.log, page.end, id);
        ShowsOn(before.entities, Pulled(before, page.log, page.end), Served(init, id), key, keyVersion, id);
      }
    }
  }

  /** The replay of a log shows of each entity its last row. */
  lemma ReplayShowsLast(log: Log, key: Option<Key>, keyVersion: int, id: Id)
    ensures Shows(Replay(log, key, keyVersion), Current(log, id), key, keyVersion, id)
  {
    var full := Replay(log, key, keyVersion);
    ReplayIsFaithful(log, key, keyVersion, |log|);
    assert log[..|log|] == log;
    var e := Current(log, id);
    if e.Some? {
      var k :| 0 <= k < |log| && log[k] == e.value && e.value.id == id && Latest(log, k);
    } else if id in full {
      var i := ShownRow(Mirror(keyVersion, key, |log|, full), log, id);
    }
  }

  /** A row that is a row of the log. */
  ghost predicate RowOf(log: Log, e: Option<Entry>, id: Id) {
    e.Some? ==> e.value.id == id && exists i :: 0 <= i < |log| && log[i] == e.value
  }

  lemma CurrentIsRow(log: Log, longer: Log, id: Id)
    requires log <= longer
    ensures RowOf(longer, Current(log, id), id)
  {
    var e := Current(log, id);
    if e.Some? {
      var i :| 0 <= i < |log| && log[i] == e.value && e.value.id == id;
      assert longer[i] == log[i];
    }
  }

  lemma {:induction false} ServedIsRow(pages: seq<Page>, log: Log, id: Id)
    requires PagesOk(pages, log)
    ensures Bounded(pages) && RowOf(log, Served(pages, id), id)
  {
    if pages != [] {
      PagesInit(pages, log);
      ServedStep(pages, id);
      ServedIsRow(pages[..|pages| - 1], log, id);
      CurrentIsRow(pages[|pages| - 1].log, log, id);
    }
  }

  predicate ShowsNothing(e: Option<Entry>) { e.None? || e.value.deleted }

  /** The same row, or two that show nothing. */
  predicate AsGood(a: Option<Entry>, b: Option<Entry>) { a == b || (ShowsNothing(a) && ShowsNothing(b)) }

  /** Two readings agree on an entity exactly when they show the same row of it, or none. */
  lemma ShowAlikeExactly(
    mine: map<Id, Entity>, full: map<Id, Entity>, a: Option<Entry>, b: Option<Entry>, log: Log,
    key: Option<Key>, keyVersion: int, id: Id)
    requires LogOk(log) && RowOf(log, a, id) && RowOf(log, b, id)
    requires Shows(mine, a, key, keyVersion, id) && Shows(full, b, key, keyVersion, id)
    ensures SameAt(mine, full, id) <==> AsGood(a, b)
  {
    if SameAt(mine, full, id) && !ShowsNothing(a) {
      var i: nat :| i < |log| && log[i] == a.value;
      var j: nat :| j < |log| && log[j] == b.value;
      VersionNamesRow(log, i, j);
    }
  }

  /** The row last served of `id` is its last one in `seen`, or neither shows anything. */
  ghost predicate ServedRight(pages: seq<Page>, seen: Log, id: Id)
    requires Bounded(pages)
  {
    AsGood(Served(pages, id), Current(seen, id))
  }

  lemma ServedRightExactly(key: Option<Key>, keyVersion: int, pages: seq<Page>, log: Log, seen: Log, id: Id)
    requires LogOk(log) && PagesOk(pages, log) && seen <= log
    ensures Bounded(pages)
    ensures SameAt(Paged(key, keyVersion, pages).entities, Replay(seen, key, keyVersion), id) <==>
              ServedRight(pages, seen, id)
  {
    PagedShowsServed(key, keyVersion, pages, log, id);
    ReplayShowsLast(seen, key, keyVersion, id);
    ServedIsRow(pages, log, id);
    CurrentIsRow(seen, log, id);
    ShowAlikeExactly(Paged(key, keyVersion, pages).entities, Replay(seen, key, keyVersion),
                     Served(pages, id), Current(seen, id), log, key, keyVersion, id);
  }

  lemma EndIsWithin(pages: seq<Page>, log: Log)
    requires PagesOk(pages, log)
    ensures Bounded(pages) && EndOf(pages) <= |log| && log[..EndOf(pages)] <= log
  {
  }

  /** Exactly when a mirror built page by page, others writing in between, shows
      the log up to its cursor: the row last served of each entity is the last
      one before the cursor, or neither shows anything. */
  lemma PagesAreReplayExactly(key: Option<Key>, keyVersion: int, pages: seq<Page>, log: Log)
    requires LogOk(log) && PagesOk(pages, log)
    ensures Bounded(pages) && EndOf(pages) <= |log|
    ensures Paged(key, keyVersion, pages).entities == Replay(log[..EndOf(pages)], key, keyVersion) <==>
              forall id: Id :: ServedRight(pages, log[..EndOf(pages)], id)
  {
    hide *;
    EndIsWithin(pages, log);
    var seen := log[..EndOf(pages)];
    var mine, full := Paged(key, keyVersion, pages).entities, Replay(seen, key, keyVersion);
    forall id: Id
      ensures SameAt(mine, full, id) <==> ServedRight(pages, seen, id)
    {
      ServedRightExactly(key, keyVersion, pages, log, seen, id);
    }
    AlikeExactly(mine, full);
  }

  // ----- the bridge's histories -----

  /** Some pages, each of the log as it was then, led to the mirror. */
  ghost predicate Reached(m: Mirror, log: Log) {
    exists pages :: LedTo(pages, m, log)
  }

  ghost predicate LedTo(pages: seq<Page>, m: Mirror, log: Log) {
    PagesOk(pages, log) && m == Paged(m.key, m.keyVersion, pages)
  }

  lemma NothingPulledIsReached(key: Option<Key>, keyVersion: int, log: Log)
    ensures Reached(Mirror(keyVersion, key, 0, map[]), log)
  {
    assert LedTo([], Mirror(keyVersion, key, 0, map[]), log);
  }

  lemma GrowthKeepsReached(m: Mirror, log: Log, longer: Log)
    requires Reached(m, log) && log <= longer
    ensures Reached(m, longer)
  {
    var pages :| LedTo(pages, m, log);
    assert LedTo(pages, m, longer);
  }

  lemma OnePageMore(pages: seq<Page>, log: Log, end: nat)
    requires PagesOk(pages, log) && EndOf(pages) <= end <= |log|
    ensures PagesOk(pages + [Page(log, end)], log)
  {
    var more := pages + [Page(log, end)];
    forall i, j | 0 <= i <= j < |more|
      ensures more[i].log <= more[j].log && more[i].end <= more[j].end
    {
      if i < |pages| { assert pages[i].end <= pages[|pages| - 1].end; }
    }
  }

  lemma PagedMore(key: Option<Key>, keyVersion: int, pages: seq<Page>, page: Page)
    requires Bounded(pages) && Bounded(pages + [page])
    ensures page.end <= |page.log|
    ensures
      var before := Paged(key, keyVersion, pages);
      Paged(key, keyVersion, pages + [page]) ==
        ApplyRows(before, Survivors(page.log, before.cursor, page.end)).(cursor := page.end)
  {
    var more := pages + [page];
    assert more[|pages|] == page && more[..|more| - 1] == pages;
  }

  lemma OkIsBounded(pages: seq<Page>, log: Log)
    requires PagesOk(pages, log)
    ensures Bounded(pages)
  {
  }

  lemma LedToParts(pages: seq<Page>, m: Mirror, log: Log)
    requires LedTo(pages, m, log)
    ensures PagesOk(pages, log) && Bounded(pages) && m == Paged(m.key, m.keyVersion, pages)
  {
  }

  lemma LedToIs(pages: seq<Page>, m: Mirror, log: Log)
    requires PagesOk(pages, log) && Bounded(pages) && m == Paged(m.key, m.keyVersion, pages)
    ensures Reached(m, log)
  {
    assert LedTo(pages, m, log);
  }

  /** A page more. */
  lemma PageKeepsReached(m: Mirror, log: Log, end: nat)
    requires Reached(m, log) && m.cursor <= end <= |log|
    ensures Reached(ApplyRows(m, Survivors(log, m.cursor, end)).(cursor := end), log)
  {
    var pages :| LedTo(pages, m, log);
    var after := ApplyRows(m, Survivors(log, m.cursor, end)).(cursor := end);
    ReplayKeepsKey(m, Survivors(log, m.cursor, end));
    hide *;
    LedToParts(pages, m, log);
    PagedKey(m.key, m.keyVersion, pages);
    OnePageMore(pages, log, end);
    OkIsBounded(pages + [Page(log, end)], log);
    PagedMore(m.key, m.keyVersion, pages, Page(log, end));
    LedToIs(pages + [Page(log, end)], after, log);
  }

  /** Every mirror the bridge can hold, between pages or not, came from some
      pages, and shows the log up to its cursor exactly as they say. */
  lemma ReachedIsReplayExactly(m: Mirror, log: Log) returns (pages: seq<Page>)
    requires LogOk(log) && Reached(m, log)
    ensures LedTo(pages, m, log) && Bounded(pages) && EndOf(pages) == m.cursor <= |log|
    ensures m.entities == Replay(log[..m.cursor], m.key, m.keyVersion) <==>
              forall id: Id :: ServedRight(pages, log[..m.cursor], id)
  {
    pages :| LedTo(pages, m, log);
    PagedKey(m.key, m.keyVersion, pages);
    PagesAreReplayExactly(m.key, m.keyVersion, pages, log);
  }

  // ----- two inputs -----

  lemma OneStanding(log: Log, lo: nat, c: nat, id: Id, i: nat)
    requires c <= |log| && lo <= i < c && log[i].id == id && Latest(log, i)
    ensures Standing(log, lo, c, id)
  {
    assert StandsIn(log, lo, c, id, i);
  }

  lemma NoneStanding(log: Log, lo: nat, c: nat, id: Id)
    requires c <= |log| && forall i: nat :: lo <= i < c && log[i].id == id ==> !Latest(log, i)
    ensures !Standing(log, lo, c, id)
  {
  }

  lemma OnePage(log: Log, end: nat, id: Id)
    requires end <= |log| && !Standing(log, 0, end, id)
    ensures PagesOk([Page(log, end)], log) && Served([Page(log, end)], id) == None
  {
    var pages := [Page(log, end)];
    ServedStep(pages, id);
    assert pages[..0] == [];
  }

  /** A host renamed before the first page, its new row behind the page's end:
      the mirror does not have it although the log up to the cursor does. */
  lemma FirstPageCanMissAnEntity(p: Payload, q: Payload, key: Key)
    ensures
      var one := Append([], Write(1, "host", false, 1, Sealed(key, "host", 1, p)));
      var two := Append(one, Write(2, "tag", false, 1, Sealed(key, "tag", 2, q)));
      var log := Append(two, Write(1, "host", false, 1, Sealed(key, "host", 1, q)));
      && |log| == 3 && PagesOk([Page(log, 2)], log)
      && 1 !in Paged(Some(key), 1, [Page(log, 2)]).entities && 1 in Replay(log[..2], Some(key), 1)
  {
    var w1 := Write(1, "host", false, 1, Sealed(key, "host", 1, p));
    var w2 := Write(2, "tag", false, 1, Sealed(key, "tag", 2, q));
    var w3 := Write(1, "host", false, 1, Sealed(key, "host", 1, q));
    var one := Append([], w1);
    var two := Append(one, w2);
    var log := Append(two, w3);
    CurrentOfAppend([], w1, 1);
    CurrentOfAppend(one, w2, 1);
    CurrentOfAppend(two, w3, 1);
    hide Append, Current, Replay, Paged;
    assert log[2].id == 1 && log[1] == log[..2][1] && log[1].id == 2;
    NoneStanding(log, 0, 2, 1);
    OnePage(log, 2, 1);
    PagedShowsServed(Some(key), 1, [Page(log, 2)], log, 1);
    ReplayShowsLast(two, Some(key), 1, 1);
  }

  /** A host deleted and made again between two pages, the second of which ends
      in between: the mirror still shows it although the log up to the cursor
      has it deleted. */
  lemma DeletedHostCanStayShown(p: Payload, q: Payload, key: Key)
    ensures
      var one := Append([], Write(1, "host", false, 1, Sealed(key, "host", 1, p)));
      var gone := Append(one, Write(1, "host", true, 1, Junk));
      var three := Append(gone, Write(2, "tag", false, 1, Sealed(key, "tag", 2, q)));
      var four := Append(three, Write(1, "host", false, 1, Sealed(key, "host", 1, q)));
      var pages := [Page(one, 1), Page(four, 3)];
      && PagesOk(pages, four) && |four| == 4
      && 1 in Paged(Some(key), 1, pages).entities && 1 !in Replay(four[..3], Some(key), 1)
  {
    var one := Append([], Write(1, "host", false, 1, Sealed(key, "host", 1, p)));
    var gone := Append(one, Write(1, "host", true, 1, Junk));
    var three := Append(gone, Write(2, "tag", false, 1, Sealed(key, "tag", 2, q)));
    var four := Append(three, Write(1, "host", false, 1, Sealed(key, "host", 1, q)));
    var pages := [Page(one, 1), Page(four, 3)];
    assert four[1].id == 1 && four[2].id == 2 && four[3].id == 1 && four[..3] == three;
    NoneStanding(four, 1, 3, 1);
    OneStanding(one, 0, 1, 1, 0);
    ServedStep(pages, 1);
    assert pages[..1] == [pages[0]] && pages[..1][..0] == [];
    ServedStep(pages[..1], 1);
    PagedShowsServed(Some(key), 1, pages, four, 1);
    ReplayShowsLast(three, Some(key), 1, 1);
    assert Current(three[..2], 1) == Some(three[1]);
  }
}
