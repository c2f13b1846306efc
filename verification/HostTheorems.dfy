/** Ownership under the client's host and group editors: every config keeps one
    owner, every inline identity one config, and nothing is orphaned. */
module HostTheorems {
  import opened Wrappers
  import opened Schema
  import opened VaultGraph
  import opened BridgePlans
  import opened PlanSwaps
  import opened PlanAssembly
  import opened HostForms
  import PT = PlanTheorems
  import opened Text

  // ----- rows nothing refers to -----

  /** Serial configs and rows of other kinds can go without a trace. */
  lemma LooseRowsMayGo(v: Vault, loose: set<Id>)
    requires WellFormed(v) && forall x :: x in loose && x in v ==> SortOf(v[x]) in {SerialS, OtherS}
    ensures WellFormed(v - loose)
  {
    var w := v - loose;
    forall x | x in w
      ensures RefsOk(w, w[x])
    {
      assert RefsOk(v, v[x]);
    }
    forall c | c in w && IsConfig(w[c])
      ensures exists o :: Owns(w, o, c)
    {
      var o :| Owns(v, o, c);
      assert Owns(w, o, c);
    }
    forall i | i in w && IsInline(w[i])
      ensures exists c :: Uses(w, c, i)
    {
      var c :| Uses(v, c, i);
      assert Uses(w, c, i);
    }
    assert ConfigsUnshared(w) by {
      forall a, b, c | Owns(w, a, c) && Owns(w, b, c) ensures a == b { assert Owns(v, a, c) && Owns(v, b, c); }
    }
    assert InlineUnshared(w) by {
      forall a, b, i | i in w && IsInline(w[i]) && Uses(w, a, i) && Uses(w, b, i)
        ensures a == b
      {
        assert Uses(v, a, i) && Uses(v, b, i);
      }
    }
  }

  // ----- what a login may write -----

  /** Keychain identities and keys of `now` are those of `v`. */
  ghost predicate SharedRowsFrom(v: Vault, now: Vault) {
    && (forall x :: x in now && now[x].IdentityP? && now[x].identity.isVisible ==> x in v && v[x] == now[x])
    && (forall x :: x in now && now[x].SshKeyP? ==> x in v && v[x] == now[x])
  }

  ghost predicate ClientLogin(v: Vault, h: Option<Id>, lo: Id, e: Edit, now: Option<Id>) {
    && lo <= e.next && e.drops <= Opt(h)
    && (forall x :: x in e.puts ==>
      IsInline(e.puts[x]) && now == Some(x) && (if h.Some? then now == h else lo <= x < e.next))
    && (now.Some? && now.value !in e.puts ==>
      now.value in v && v[now.value].IdentityP? && v[now.value].identity.isVisible)
    && (h.Some? ==> (h.value in e.drops <==> h.value !in e.puts))
  }

  /** The keys that put identities name are keys of `v`. */
  ghost predicate KeysOf(v: Vault, puts: map<Id, Payload>) {
    forall x :: x in puts ==> Points(v, KeyRef(puts[x]), KeyS)
  }

  lemma LoginIsClientLogin(v: Vault, now: Vault, next: Id, inline: Option<(Id, Identity)>, c: Login, name: string,
      certKey: CertKeys)
    requires SharedRowsFrom(v, now) && SaveLogin(now, next, inline, c, name, certKey).Ok?
    ensures
      var (e, i) := SaveLogin(now, next, inline, c, name, certKey).value;
      ClientLogin(v, if inline.Some? then Some(inline.value.0) else None, next, e, i) && KeysOf(v, e.puts)
  {
    hide Trim, LoginKey;
  }

  // ----- slots -----

  /** Slot `sort` of an owner, saved on the rows `now`. */
  function SlotOf(sort: Sort, prior: Option<Id>, r: (Edit, Option<Id>), next: Id): Swap {
    Swap(sort, prior, r.1, r.0.puts, r.0.drops, next, r.0.next)
  }

  lemma InlineOfConfigIsInline(v: Vault, prior: Option<Id>)
    ensures InlineOfConfig(v, prior).Some? <==> InlineAt(v, prior).Some?
    ensures InlineOfConfig(v, prior).Some? ==> InlineAt(v, prior) == Some(InlineOfConfig(v, prior).value.0)
  {
  }

  /** A config around a client login. */
  lemma ClientSlotIsSwapped(v: Vault, s: Swap, e: Edit, identity: Option<Id>, cfg: Payload)
    requires Closed(v) && Points(v, s.prior, s.sort) && s.sort in {SshS, TelnetS, WebDavS} &&
        (forall y :: y in v ==> y < s.lo)
    requires ClientLogin(v, InlineAt(v, s.prior), s.lo, e, identity)
    requires s.now == Some(if s.prior.Some? then s.prior.value else e.next)
    requires s.puts == e.puts[s.now.value := cfg] && s.drops == e.drops && IsConfig(cfg) && SortOf(cfg) == s.sort &&
        IdentityRef(cfg) == identity
    requires s.hi == if s.prior.Some? then e.next else e.next + 1
    ensures Swapped(v, s)
  {
    var h := InlineAt(v, s.prior);
    assert h != s.now by { if h.Some? { assert h.value in v && v[h.value].IdentityP?; } }
    assert s.now.value !in e.puts;
    assert forall x :: x in e.puts ==> x in s.puts && s.puts[x] == e.puts[x];
  }

  lemma ClientEmptied(v: Vault, s: Swap)
    requires Closed(v) && Points(v, s.prior, s.sort) && s.now.None? && s.puts == map[] && s.lo == s.hi
    requires s.drops == Opt(InlineAt(v, s.prior)) + Opt(s.prior)
    ensures Swapped(v, s)
  {
  }

  /** Puts of a client slot: never a key, a keychain identity or an owner. */
  predicate PutsPlain(puts: map<Id, Payload>) { forall x :: x in puts ==> IsConfig(puts[x]) || IsInline(puts[x]) }

  ghost predicate ClientSlot(v: Vault, s: Swap) {
    Swapped(v, s) && PutsPlain(s.puts) && KeysOf(v, s.puts) && forall x :: x in s.drops ==>
      x in v && (IsConfig(v[x]) || IsInline(v[x]))
  }

  lemma SlotDropsPlain(v: Vault, s: Swap)
    requires Closed(v) && Points(v, s.prior, s.sort) && s.sort in {SshS, TelnetS, WebDavS}
    requires s.drops <= Opt(InlineAt(v, s.prior)) + Opt(s.prior)
    ensures forall x :: x in s.drops ==> x in v && (IsConfig(v[x]) || IsInline(v[x]))
  {
  }

  /** Every saved section is a swapped slot of the vault the save began with. */
  lemma SavedSlotIsSwapped(
    v: Vault, now: Vault, next: Id, sort: Sort, prior: Option<Id>, f: Option<SectionForm>, name: string,
      certKey: CertKeys)
    requires Closed(v) && SharedRowsFrom(v, now) && Points(v, prior, sort) && sort in {SshS, TelnetS, WebDavS}
    requires forall y :: y in v ==> y < next
    requires SaveSlot(now, next, sort, ConfigOf(v, prior, sort), InlineOfConfig(v, prior), f, name, certKey).Ok?
    ensures
      var s := SlotOf(sort, prior, SaveSlot(now, next, sort, ConfigOf(v, prior, sort), InlineOfConfig(v, prior), f,
        name, certKey).value, next);
      ClientSlot(v, s)
  {
    var was, inline := ConfigOf(v, prior, sort), InlineOfConfig(v, prior);
    var r := SaveSlot(now, next, sort, was, inline, f, name, certKey).value;
    var s := SlotOf(sort, prior, r, next);
    InlineOfConfigIsInline(v, prior);
    match f
    case None =>
      ClientEmptied(v, s);
      SlotDropsPlain(v, s);
    case Some(sf) =>
      LoginIsClientLogin(v, now, next, inline, sf.login, name, certKey);
      var (e, identity) := SaveLogin(now, next, inline, sf.login, name, certKey).value;
      hide SaveLogin;
      var cfg := Configured(was, sort, sf.port, sf.settings, identity);
      ConfiguredFits(was, sort, sf.port, sf.settings, identity);
      hide Configured;
      ClientSlotIsSwapped(v, s, e, identity, cfg);
      SlotDropsPlain(v, s);
  }

  lemma ConfiguredFits(was: Option<(Id, Payload)>, sort: Sort, port: Option<nat>, settings: string -> string,
      identity: Option<Id>)
    requires sort in {SshS, TelnetS, WebDavS}
    ensures
      var cfg := Configured(was, sort, port, settings, identity);
      SortOf(cfg) == sort && IsConfig(cfg) && IdentityRef(cfg) == identity && KeyRef(cfg) == None
  {
  }

  // ----- an owner with its three slots -----

  /** The rows after one slot is saved. */
  function After(v: Vault, s: Swap): Vault { (v + s.puts) - s.drops }

  ghost predicate SlotsDone(v: Vault, o: Id, owner: Payload, s: seq<Swap>) {
    && |s| == SLOTS
    && forall k :: 0 <= k < SLOTS ==>
         && s[k].sort == SlotSort(k) && (ClientSlot(v, s[k]) || Kept(s[k])) && Points(v, s[k].prior, s[k].sort)
         && s[k].prior == (if o in v then SlotRef(v[o], k) else None) && s[k].now == SlotRef(owner, k)
  }

  ghost predicate IdsDrawn(v: Vault, o: Id, s: seq<Swap>)
    requires |s| == SLOTS
  {
    && (forall x :: x in v ==> x < s[0].lo)
    && s[0].lo <= s[0].hi <= s[1].lo <= s[1].hi <= s[2].lo <= s[2].hi && (o < s[0].lo || s[2].hi <= o)
  }

  /** An owner saved with its slots, on a well-formed vault. */
  ghost predicate ClientSave(v: Vault, o: Id, owner: Payload, s: seq<Swap>) {
    && WellFormed(v) && SlotsDone(v, o, owner, s) && IdsDrawn(v, o, s) && IsOwner(owner)
    && (o in v ==> IsOwner(v[o]) && SortOf(v[o]) == SortOf(owner))
  }

  function AssemblyOf(o: Id, owner: Option<Payload>, s: seq<Swap>, moved: map<Id, Payload>): Assembly {
    Assembly(o, owner, s, map[], moved)
  }

  lemma SlotsOfSave(v: Vault, o: Id, owner: Payload, s: seq<Swap>, k: nat)
    requires ClientSave(v, o, owner, s) && k < SLOTS
    ensures s[k].sort == SlotSort(k) && (ClientSlot(v, s[k]) || Kept(s[k])) && Points(v, s[k].prior, s[k].sort)
    ensures forall x :: x in v ==> x < s[k].lo
    ensures Kept(s[k]) || Swapped(v, s[k])
  {
  }

  lemma SaveBegins(v: Vault, o: Id, owner: Payload, s: seq<Swap>)
    requires ClientSave(v, o, owner, s)
    ensures WellFormed(v) && |s| == SLOTS && IsOwner(owner)
  {
    hide WellFormed, SlotSort, SlotRef, Points, ClientSlot, Kept;
  }

  lemma PairApart(v: Vault, o: Id, owner: Payload, s: seq<Swap>, j: nat, k: nat)
    requires ClientSave(v, o, owner, s) && j < SLOTS && k < SLOTS && j != k
    ensures s[j].puts.Keys !! s[k].puts.Keys && s[j].puts.Keys !! s[k].drops
  {
    SlotsOfSave(v, o, owner, s, j);
    SlotsOfSave(v, o, owner, s, k);
    assert s[j].hi <= s[k].lo || s[k].hi <= s[j].lo;
    hide ClientSave, Swapped, WellFormed, Points;
    if !Kept(s[j]) && !Kept(s[k]) {
      assert SlotPair(v, s[j], s[k]);
      assert WellFormed(v) by { SaveBegins(v, o, owner, s); }
      forall x | x in s[j].puts
        ensures x !in s[k].puts && x !in s[k].drops
      {
        SlotTouches(v, o, owner, s, j, x);
        PutsApart(v, s[j], s[k], x);
        PutsAndDropsApart(v, s[j], s[k], x);
      }
    }
  }

  lemma SaveIsAssembled(v: Vault, o: Id, owner: Payload, s: seq<Swap>)
    requires ClientSave(v, o, owner, s)
    ensures Assembled(v, AssemblyOf(o, Some(owner), s, map[]))
  {
    var a := AssemblyOf(o, Some(owner), s, map[]);
    forall j, k | 0 <= j < SLOTS && 0 <= k < SLOTS && j != k
      ensures s[j].puts.Keys !! s[k].puts.Keys && s[j].puts.Keys !! s[k].drops
    {
      PairApart(v, o, owner, s, j, k);
    }
    forall k | 0 <= k < SLOTS ensures Swapped(v, s[k]) || Kept(s[k]) { SlotsOfSave(v, o, owner, s, k); }
    hide Swapped, WellFormed, Points;
    assert SlotsFit(v, a) && IdsFresh(v, a) && OwnerFits(v, a) && SlotsApart(a);
  }

  lemma SlotMisses(v: Vault, o: Id, owner: Payload, s: seq<Swap>, k: nat)
    requires ClientSave(v, o, owner, s) && k < SLOTS
    ensures o !in s[k].puts && o !in s[k].drops && s[k].puts.Keys !! s[k].drops
  {
    SlotsOfSave(v, o, owner, s, k);
    if !Kept(s[k]) {
      assert Closed(v);
      hide SlotsDone;
      PT.SlotMissesOwner(v, s[k], o);
    }
  }

  /** The rows a save leaves behind. */
  function Saved(v: Vault, o: Id, owner: Payload, s: seq<Swap>): Vault
    requires |s| == SLOTS
  {
    After(After(After(v, s[0]), s[1]), s[2])[o := owner]
  }

  ghost predicate AllApart(o: Id, s: seq<Swap>)
    requires |s| == SLOTS
  {
    && (forall j, k :: 0 <= j < SLOTS && 0 <= k < SLOTS ==> s[j].puts.Keys !! s[k].drops)
    && (forall j, k :: 0 <= j < SLOTS && 0 <= k < SLOTS && j != k ==> s[j].puts.Keys !! s[k].puts.Keys)
    && (forall k :: 0 <= k < SLOTS ==> o !in s[k].puts && o !in s[k].drops)
  }

  lemma SaveIsApart(v: Vault, o: Id, owner: Payload, s: seq<Swap>)
    requires ClientSave(v, o, owner, s)
    ensures AllApart(o, s)
  {
    forall j, k | 0 <= j < SLOTS && 0 <= k < SLOTS
      ensures s[j].puts.Keys !! s[k].drops && (j != k ==> s[j].puts.Keys !! s[k].puts.Keys)
    {
      if j != k { PairApart(v, o, owner, s, j, k); } else { SlotMisses(v, o, owner, s, k); }
    }
    forall k | 0 <= k < SLOTS ensures o !in s[k].puts && o !in s[k].drops { SlotMisses(v, o, owner, s, k); }
  }

  lemma ApartMakes(v: Vault, o: Id, owner: Payload, s: seq<Swap>)
    requires |s| == SLOTS && AllApart(o, s)
    ensures Makes(v, AssemblyOf(o, Some(owner), s, map[]), Saved(v, o, owner, s))
  {
    var a, w := AssemblyOf(o, Some(owner), s, map[]), Saved(v, o, owner, s);
    forall k, x | 0 <= k < SLOTS && x in s[k].puts
      ensures x in w && w[x] == s[k].puts[x]
    {
      if k == 0 { assert x !in s[1].puts && x !in s[2].puts; }
      if k == 1 { assert x !in s[2].puts; }
    }
    forall x | DroppedBySlot(a, x)
      ensures x !in w
    {
      var k :| 0 <= k < SLOTS && x in s[k].drops;
      assert x !in s[0].puts && x !in s[1].puts && x !in s[2].puts && x != o;
    }
    forall x | x != o && !PutBySlot(a, x) && !DroppedBySlot(a, x)
      ensures (x in v <==> x in w) && (x in v && x in w ==> v[x] == w[x])
    {
      assert a.swaps == s;
      assert x !in s[0].puts && x !in s[1].puts && x !in s[2].puts && x !in s[0].drops && x !in s[1].drops &&
        x !in s[2].drops;
    }
  }

  lemma SlotTouches(v: Vault, o: Id, owner: Payload, s: seq<Swap>, k: nat, x: Id)
    requires ClientSave(v, o, owner, s) && k < SLOTS
    ensures x in s[k].puts ==>
        (IsConfig(s[k].puts[x]) || IsInline(s[k].puts[x])) && Points(v, KeyRef(s[k].puts[x]), KeyS)
    ensures x in s[k].drops ==> x in v && (IsConfig(v[x]) || IsInline(v[x]))
  {
    hide WellFormed, Swapped, IdsDrawn;
    assert s[k].sort == SlotSort(k) && (ClientSlot(v, s[k]) || Kept(s[k]));
  }

  /** Keys are not touched, so whatever named one still does. */
  lemma SaveKeysLinked(v: Vault, o: Id, owner: Payload, s: seq<Swap>, w: Vault)
    requires ClientSave(v, o, owner, s)
    requires Assembled(v, AssemblyOf(o, Some(owner), s, map[])) && Makes(v, AssemblyOf(o, Some(owner), s, map[]), w)
    ensures KeysLinked(AssemblyOf(o, Some(owner), s, map[]), w)
  {
    var a := AssemblyOf(o, Some(owner), s, map[]);
    hide ClientSave, Assembled, Makes, Points;
    SaveBegins(v, o, owner, s);
    forall k, x | 0 <= k < |a.swaps| && x in a.swaps[k].puts
      ensures Points(w, KeyRef(a.swaps[k].puts[x]), KeyS)
    {
      SlotTouches(v, o, owner, s, k, x);
      RefKept(v, o, owner, s, w, KeyRef(s[k].puts[x]));
    }
  }

  lemma KeyKept(v: Vault, o: Id, owner: Payload, s: seq<Swap>, w: Vault, key: Id)
    requires ClientSave(v, o, owner, s) && key in v && v[key].SshKeyP?
    requires Assembled(v, AssemblyOf(o, Some(owner), s, map[])) && Makes(v, AssemblyOf(o, Some(owner), s, map[]), w)
    ensures Points(w, Some(key), KeyS)
  {
    var a := AssemblyOf(o, Some(owner), s, map[]);
    hide ClientSave, Assembled, Makes;
    SaveBegins(v, o, owner, s);
    forall k | 0 <= k < SLOTS
      ensures key !in s[k].drops
    {
      SlotTouches(v, o, owner, s, k, key);
    }
    KeyStands(v, a, w, key);
  }

  lemma RefKept(v: Vault, o: Id, owner: Payload, s: seq<Swap>, w: Vault, key: Option<Id>)
    requires ClientSave(v, o, owner, s) && Points(v, key, KeyS)
    requires Assembled(v, AssemblyOf(o, Some(owner), s, map[])) && Makes(v, AssemblyOf(o, Some(owner), s, map[]), w)
    ensures Points(w, key, KeyS)
  {
    hide ClientSave, Assembled, Makes;
    if key.Some? { KeyKept(v, o, owner, s, w, key.value); }
  }

  predicate TagsThere(v: Vault, p: Payload) { p.HostP? ==> forall t :: t in p.host.tagIds ==> Points(v, Some(t), TagS) }

  /** The saved owner sits in a group that is there. */
  predicate GroupThere(v: Vault, o: Id, p: Payload) {
    Points(v, GroupRef(p), GroupS) && (GroupRef(p) == Some(o) ==> p.GroupP?)
  }

  lemma SaveLinksOk(v: Vault, o: Id, owner: Payload, s: seq<Swap>, w: Vault)
    requires ClientSave(v, o, owner, s) && GroupThere(v, o, owner) && TagsThere(v, owner)
    requires Assembled(v, AssemblyOf(o, Some(owner), s, map[])) && Makes(v, AssemblyOf(o, Some(owner), s, map[]), w)
    ensures LinksOk(v, AssemblyOf(o, Some(owner), s, map[]), w)
  {
    var a := AssemblyOf(o, Some(owner), s, map[]);
    SaveKeysLinked(v, o, owner, s, w);
    assert o in w && w[o] == owner by { assert ExtrasMade(a, w); }
    assert o in v ==> IsOwner(v[o]);
    hide ClientSave, Assembled, Makes, KeysLinked;
    var g := GroupRef(owner);
    if g.Some? && g.value != o { BystanderStands(v, a, w, g.value); }
    if owner.HostP? {
      forall t | t in owner.host.tagIds
        ensures Points(w, Some(t), TagS)
      {
        BystanderStands(v, a, w, t);
      }
    }
  }

  /** Saving an owner keeps the vault well-formed when its group and tags exist. */
  lemma SaveKeepsWellFormed(v: Vault, o: Id, owner: Payload, s: seq<Swap>)
    requires ClientSave(v, o, owner, s) && GroupThere(v, o, owner) && TagsThere(v, owner)
    ensures WellFormed(Saved(v, o, owner, s))
  {
    var a, w := AssemblyOf(o, Some(owner), s, map[]), Saved(v, o, owner, s);
    hide WellFormed, Makes, Assembled, LinksOk, Saved;
    SaveIsApart(v, o, owner, s);
    ApartMakes(v, o, owner, s);
    SaveIsAssembled(v, o, owner, s);
    SaveLinksOk(v, o, owner, s, w);
    AssemblyKeepsWellFormed(v, a, w);
  }

  lemma OwnerIsSaved(v: Vault, o: Id, owner: Payload, s: seq<Swap>)
    requires |s| == SLOTS && WellFormed(Saved(v, o, owner, s))
    ensures OwnerRefsOk(Saved(v, o, owner, s), owner)
  {
    var w := Saved(v, o, owner, s);
    assert w[o] == owner;
    hide Saved, ConfigsUnshared, InlineUnshared, NoOrphans;
    assert RefsOk(w, w[o]);
  }

  /** A tag of the saved vault was there before. */
  lemma TagsWereThere(v: Vault, o: Id, owner: Payload, s: seq<Swap>)
    requires ClientSave(v, o, owner, s) && WellFormed(Saved(v, o, owner, s)) && owner.HostP?
    ensures TagsThere(v, owner)
  {
    hide ClientSave, Saved, WellFormed;
    SaveBegins(v, o, owner, s);
    OwnerIsSaved(v, o, owner, s);
    forall t | t in owner.host.tagIds
      ensures Points(v, Some(t), TagS)
    {
      assert Points(Saved(v, o, owner, s), Some(t), TagS);
      NotPut(v, o, owner, s, t);
    }
  }

  lemma NotPut(v: Vault, o: Id, owner: Payload, s: seq<Swap>, t: Id)
    requires ClientSave(v, o, owner, s) && t in Saved(v, o, owner, s) && Saved(v, o, owner, s)[t].TagP?
    ensures t in v && v[t].TagP?
  {
    assert |s| == SLOTS && IsOwner(owner);
    hide ClientSave;
    SlotTouches(v, o, owner, s, 0, t);
    SlotTouches(v, o, owner, s, 1, t);
    SlotTouches(v, o, owner, s, 2, t);
  }
}
