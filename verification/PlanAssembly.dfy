/** A whole plan: one owner, its three config slots, new tags and moved members.
    Whatever the slots do, the vault stays well-formed. */
module PlanAssembly {
  import opened Wrappers
  import opened Schema
  import opened VaultGraph
  import opened BridgePlans
  import opened PlanSwaps

  const SLOTS: nat := 3

  function SlotSort(k: nat): Sort { if k == 0 then SshS else if k == 1 then TelnetS else WebDavS }

  function SlotRef(p: Payload, k: nat): Option<Id> {
    match p
    case HostP(h) => if k == 0 then h.sshConfigId else if k == 1 then h.telnetConfigId else h.webdavConfigId
    case GroupP(g) => if k == 0 then g.sshConfigId else if k == 1 then g.telnetConfigId else None
    case _ => None
  }

  lemma SlotsAreConfigs(p: Payload, c: Id)
    ensures c in ConfigRefs(p) <==> exists k :: 0 <= k < SLOTS && SlotRef(p, k) == Some(c)
  {
    if c in ConfigRefs(p) {
      assert SlotRef(p, 0) == Some(c) || SlotRef(p, 1) == Some(c) || SlotRef(p, 2) == Some(c);
    }
  }

  /** `owner` is what becomes of `o`: `None` deletes it. */
  datatype Assembly = Assembly(
    o: Id, owner: Option<Payload>, swaps: seq<Swap>, tags: map<Id, Payload>, moved: map<Id, Payload>)

  ghost predicate SlotsFit(v: Vault, a: Assembly) {
    && |a.swaps| == SLOTS
    && forall k :: 0 <= k < SLOTS ==>
         && a.swaps[k].sort == SlotSort(k)
         && (Swapped(v, a.swaps[k]) || Kept(a.swaps[k]))
         && a.swaps[k].prior == (if a.o in v then SlotRef(v[a.o], k) else None)
         && a.swaps[k].now == (if a.owner.Some? then SlotRef(a.owner.value, k) else None)
  }

  /** New ids are drawn slot after slot, all beyond the ids in use. */
  ghost predicate IdsFresh(v: Vault, a: Assembly)
    requires |a.swaps| == SLOTS
  {
    && (forall x :: x in v ==> x < a.swaps[0].lo)
    && (a.o < a.swaps[0].lo || a.swaps[2].hi <= a.o) && a.o !in a.tags
    && a.swaps[0].lo <= a.swaps[0].hi <= a.swaps[1].lo <= a.swaps[1].hi <= a.swaps[2].lo <= a.swaps[2].hi
    && (forall t :: t in a.tags ==> a.swaps[2].hi <= t && a.tags[t].TagP?)
  }

  ghost predicate OwnerFits(v: Vault, a: Assembly) {
    && (a.o in v ==> IsOwner(v[a.o]))
    && (a.owner.Some? ==> IsOwner(a.owner.value) && (a.o in v ==> SortOf(v[a.o]) == SortOf(a.owner.value)))
    && (forall x :: x in a.moved ==> x in v && x != a.o && IsOwner(v[x]) && KeepsConfigs(v[x], a.moved[x]))
  }

  /** Slots do not step on each other. */
  ghost predicate SlotsApart(a: Assembly)
    requires |a.swaps| == SLOTS
  {
    forall j, k :: 0 <= j < SLOTS && 0 <= k < SLOTS && j != k ==>
      a.swaps[j].puts.Keys !! a.swaps[k].puts.Keys && a.swaps[j].puts.Keys !! a.swaps[k].drops
  }

  ghost predicate Assembled(v: Vault, a: Assembly) {
    WellFormed(v) && SlotsFit(v, a) && IdsFresh(v, a) && OwnerFits(v, a) && SlotsApart(a)
  }

  predicate PutBySlot(a: Assembly, x: Id) { exists k :: 0 <= k < |a.swaps| && x in a.swaps[k].puts }

  predicate DroppedBySlot(a: Assembly, x: Id) { exists k :: 0 <= k < |a.swaps| && x in a.swaps[k].drops }

  ghost predicate SlotsMade(a: Assembly, w: Vault) {
    && (forall k, x :: 0 <= k < |a.swaps| && x in a.swaps[k].puts ==> x in w && w[x] == a.swaps[k].puts[x])
    && (forall x :: DroppedBySlot(a, x) ==> x !in w)
  }

  ghost predicate ExtrasMade(a: Assembly, w: Vault) {
    && (forall t :: t in a.tags ==> t in w && w[t] == a.tags[t])
    && (forall x :: x in a.moved ==> x in w && w[x] == a.moved[x])
    && (if a.owner.Some? then a.o in w && w[a.o] == a.owner.value else a.o !in w)
  }

  ghost predicate RestUntouched(v: Vault, a: Assembly, w: Vault) {
    forall x :: x != a.o && !PutBySlot(a, x) && !DroppedBySlot(a, x) && x !in a.tags && x !in a.moved ==>
      (x in v <==> x in w) && (x in v && x in w ==> v[x] == w[x])
  }

  /** `w` is the vault the assembly makes of `v`. */
  ghost predicate Makes(v: Vault, a: Assembly, w: Vault) {
    SlotsMade(a, w) && ExtrasMade(a, w) && RestUntouched(v, a, w)
  }

  // ----- slots of one owner do not meet -----

  /** Two slots of one owner have different configs and different inline identities. */
  lemma PriorsApart(v: Vault, a: Swap, b: Swap)
    requires WellFormed(v) && a.sort != b.sort && {a.sort, b.sort} <= {SshS, TelnetS, WebDavS}
    requires Points(v, a.prior, a.sort) && Points(v, b.prior, b.sort)
    ensures a.prior.Some? ==> a.prior != b.prior
    ensures InlineAt(v, a.prior).Some? ==> InlineAt(v, a.prior) != InlineAt(v, b.prior)
  {
    var h := InlineAt(v, a.prior);
    if h.Some? && h == InlineAt(v, b.prior) {
      assert Uses(v, a.prior.value, h.value) && Uses(v, b.prior.value, h.value);
    }
  }

  /** An entity of the vault that a slot puts is its config, its inline identity or that one's key. */
  lemma PutTouches(v: Vault, s: Swap, x: Id)
    requires Closed(v) && Swapped(v, s) && Points(v, s.prior, s.sort) && x in s.puts
    requires forall y :: y in v ==> y < s.lo
    ensures x !in v ==> s.lo <= x < s.hi
    ensures x in v ==> Some(x) == s.prior || Some(x) == InlineAt(v, s.prior) || KeyOfInline(v, InlineAt(v, s.prior), x)
    ensures x in v ==> x < s.lo
    ensures Some(x) == InlineAt(v, s.prior) || KeyOfInline(v, InlineAt(v, s.prior), x) || Some(x) == s.prior ==> x in v
  {
  }

  /** So does what it drops. */
  lemma DropTouches(v: Vault, s: Swap, x: Id)
    requires Closed(v) && Swapped(v, s) && Points(v, s.prior, s.sort) && x in s.drops
    ensures x in v
    ensures Some(x) == s.prior || Some(x) == InlineAt(v, s.prior) || DropsKey(v, s, x)
  {
  }

  predicate SlotPair(v: Vault, a: Swap, b: Swap) {
    && a.sort != b.sort && {a.sort, b.sort} <= {SshS, TelnetS, WebDavS}
    && Points(v, a.prior, a.sort) && Points(v, b.prior, b.sort)
    && (a.hi <= b.lo || b.hi <= a.lo)
  }

  /** What one slot puts, another never drops. */
  lemma PutsAndDropsApart(v: Vault, a: Swap, b: Swap, x: Id)
    requires WellFormed(v) && SlotPair(v, a, b) && Swapped(v, a) && Swapped(v, b)
    requires forall y :: y in v ==> y < a.lo && y < b.lo
    requires x in a.puts
    ensures x !in b.drops
  {
    PriorsApart(v, a, b);
    PutTouches(v, a, x);
    if x in b.drops {
      DropTouches(v, b, x);
      if DropsKey(v, b, x) {
        assert NamesKey(v, InlineAt(v, a.prior).value, x);
      }
    }
  }

  /** Two slots put the same id only if both rewrite one shared key. */
  lemma PutsApart(v: Vault, a: Swap, b: Swap, x: Id)
    requires WellFormed(v) && SlotPair(v, a, b) && Swapped(v, a) && Swapped(v, b)
    requires forall y :: y in v ==> y < a.lo && y < b.lo
    requires x in a.puts && !a.puts[x].SshKeyP?
    ensures x !in b.puts
  {
    PriorsApart(v, a, b);
    PutTouches(v, a, x);
    if x in b.puts {
      PutTouches(v, b, x);
    }
  }

  // ----- from an assembly to a rewiring -----

  function SwapKeys(v: Vault, s: Swap): set<Id> {
    (set x | x in s.puts && s.puts[x].SshKeyP?) + (set x | x in s.drops && x in v && v[x].SshKeyP?)
  }

  function RewiringOf(v: Vault, a: Assembly, w: Vault): Rewiring
    requires |a.swaps| == SLOTS
  {
    Rewiring(a.o, Mine(v, a.o), Mine(w, a.o),
             SwapKeys(v, a.swaps[0]) + SwapKeys(v, a.swaps[1]) + SwapKeys(v, a.swaps[2]), a.tags.Keys)
  }

  lemma KeysInRewiring(v: Vault, a: Assembly, w: Vault, x: Id)
    requires |a.swaps| == SLOTS
    ensures x in RewiringOf(v, a, w).keys <==> exists k :: 0 <= k < SLOTS && x in SwapKeys(v, a.swaps[k])
  {
    if x in RewiringOf(v, a, w).keys {
      assert x in SwapKeys(v, a.swaps[0]) || x in SwapKeys(v, a.swaps[1]) || x in SwapKeys(v, a.swaps[2]);
    }
  }

  lemma PriorPoints(v: Vault, a: Assembly, k: nat)
    requires Assembled(v, a) && k < SLOTS
    ensures Points(v, a.swaps[k].prior, a.swaps[k].sort)
    ensures a.swaps[k].prior.Some? ==> a.o in v && Owns(v, a.o, a.swaps[k].prior.value)
    ensures a.o !in v ==> a.swaps[k].prior.None?
  {
    if a.o in v {
      assert RefsOk(v, v[a.o]);
      if a.swaps[k].prior.Some? { SlotsAreConfigs(v[a.o], a.swaps[k].prior.value); }
    }
  }

  /** Nothing of slot `k` that was there before: not its config, its inline identity nor that one's key. */
  predicate Stranger(v: Vault, s: Swap, x: Id) {
    Some(x) != s.prior && Some(x) != InlineAt(v, s.prior) && !KeyOfInline(v, InlineAt(v, s.prior), x)
  }

  lemma StrangerToSwap(v: Vault, s: Swap, x: Id)
    requires Closed(v) && Swapped(v, s) && Points(v, s.prior, s.sort) && (forall y :: y in v ==> y < s.lo)
    requires x in v && Stranger(v, s, x)
    ensures x !in s.puts && x !in s.drops
  {
  }

  lemma SlotFacts(v: Vault, a: Assembly, k: nat) returns (s: Swap)
    requires Assembled(v, a) && k < SLOTS
    ensures |a.swaps| == SLOTS && s == a.swaps[k] && s.sort == SlotSort(k) && (Swapped(v, s) || Kept(s)) &&
        Points(v, s.prior, s.sort)
    ensures forall y :: y in v ==> y < s.lo
  {
    s := a.swaps[k];
    PriorPoints(v, a, k);
  }

  lemma StrangerNotTouched(v: Vault, a: Assembly, k: nat, x: Id)
    requires Assembled(v, a) && k < SLOTS && x in v
    requires Kept(a.swaps[k]) || Stranger(v, a.swaps[k], x)
    ensures x !in a.swaps[k].puts && x !in a.swaps[k].drops
  {
    var s := SlotFacts(v, a, k);
    if !Kept(s) { StrangerToSwap(v, s, x); }
  }

  /** An entity that no replaced slot has a hold on is as it was. */
  lemma StrangerStands(v: Vault, a: Assembly, w: Vault, x: Id)
    requires Assembled(v, a) && Makes(v, a, w) && x in v && !IsOwner(v[x])
    requires forall k :: 0 <= k < SLOTS ==> Kept(a.swaps[k]) || Stranger(v, a.swaps[k], x)
    ensures x in w && w[x] == v[x]
  {
    forall k | 0 <= k < SLOTS
      ensures x !in a.swaps[k].puts && x !in a.swaps[k].drops
    {
      StrangerNotTouched(v, a, k, x);
    }
  }

  lemma VisibleIsStranger(v: Vault, s: Swap, i: Id)
    requires Points(v, s.prior, s.sort) && s.sort in {SshS, TelnetS, WebDavS}
    requires i in v && v[i].IdentityP? && v[i].identity.isVisible
    ensures Stranger(v, s, i)
  {
  }

  /** A keychain identity is never touched. */
  lemma VisibleStands(v: Vault, a: Assembly, w: Vault, i: Id)
    requires Assembled(v, a) && Makes(v, a, w) && i in v && v[i].IdentityP? && v[i].identity.isVisible
    ensures i in w && w[i] == v[i]
  {
    forall k | 0 <= k < SLOTS
      ensures Stranger(v, a.swaps[k], i)
    {
      hide Swapped, Kept, Makes, WellFormed, Stranger;
      var s := SlotFacts(v, a, k);
      VisibleIsStranger(v, s, i);
    }
    hide Makes, WellFormed, Stranger, Swapped, Kept;
    StrangerStands(v, a, w, i);
  }

  /** What slot `k` held before is strange to every other slot. */
  lemma StrangeToOthers(v: Vault, a: Assembly, k: nat, j: nat, x: Id)
    requires Assembled(v, a) && k < SLOTS && j < SLOTS && j != k && HadBySlot(v, a.swaps[k], x)
    ensures Stranger(v, a.swaps[j], x)
  {
    var s := SlotFacts(v, a, k);
    var t := SlotFacts(v, a, j);
    PriorsApart(v, s, t);
  }

  predicate HadBySlot(v: Vault, s: Swap, x: Id) { s.prior == Some(x) || InlineAt(v, s.prior) == Some(x) }

  /** What a slot the plan leaves alone held is as it was. */
  lemma KeptThingStands(v: Vault, a: Assembly, w: Vault, k: nat, x: Id)
    requires Assembled(v, a) && Makes(v, a, w) && k < SLOTS && Kept(a.swaps[k]) && HadBySlot(v, a.swaps[k], x)
    ensures x in v && x in w && w[x] == v[x]
  {
    var s := SlotFacts(v, a, k);
    forall j | 0 <= j < SLOTS
      ensures Kept(a.swaps[j]) || Stranger(v, a.swaps[j], x)
    {
      if j != k { StrangeToOthers(v, a, k, j, x); }
    }
    StrangerStands(v, a, w, x);
  }

  lemma PriorIsConfig(v: Vault, a: Assembly, k: nat) returns (c: Id)
    requires Assembled(v, a) && k < SLOTS && a.swaps[k].prior.Some?
    ensures a.swaps[k].prior == Some(c) && c in v && IsConfig(v[c]) && RefsOk(v, v[c])
  {
    PriorPoints(v, a, k);
    c := a.swaps[k].prior.value;
  }

  /** The identity named by a config that is left alone is as it was, inline or not. */
  lemma KeptIdentityStands(v: Vault, a: Assembly, w: Vault, k: nat, c: Id, i: Id)
    requires Assembled(v, a) && Makes(v, a, w) && k < SLOTS && Kept(a.swaps[k]) && a.swaps[k].prior == Some(c)
    requires c in v && IdentityRef(v[c]) == Some(i) && i in v && v[i].IdentityP?
    ensures i in w && w[i] == v[i]
  {
    if v[i].identity.isVisible {
      VisibleStands(v, a, w, i);
    } else {
      KeptThingStands(v, a, w, k, i);
    }
  }

  lemma SameInline(v: Vault, w: Vault, c: Id)
    requires c in v && c in w && w[c] == v[c]
    requires IdentityRef(v[c]).Some? ==> IdentityRef(v[c]).value in v
    requires IdentityRef(v[c]).Some? ==>
        IdentityRef(v[c]).value in w && w[IdentityRef(v[c]).value] == v[IdentityRef(v[c]).value]
    ensures InlineAt(w, Some(c)) == InlineAt(v, Some(c))
  {
  }

  /** A slot the plan leaves alone keeps its config and its inline identity. */
  lemma KeptStands(v: Vault, a: Assembly, w: Vault, k: nat)
    requires Assembled(v, a) && Makes(v, a, w) && k < SLOTS && Kept(a.swaps[k]) && a.swaps[k].prior.Some?
    ensures InlineAt(w, a.swaps[k].prior) == InlineAt(v, a.swaps[k].prior)
  {
    hide Assembled, Makes;
    var c := PriorIsConfig(v, a, k);
    KeptThingStands(v, a, w, k, c);
    if IdentityRef(v[c]).Some? { KeptIdentityStands(v, a, w, k, c, IdentityRef(v[c]).value); }
    SameInline(v, w, c);
  }

  /** What `o` has afterwards: each slot's config, and the inline identity it was put or kept with. */
  predicate HasNow(v: Vault, a: Assembly, x: Id) {
    || x == a.o
    || (exists k :: 0 <= k < |a.swaps| && HeldBySlot(v, a.swaps[k], x))
  }

  predicate HeldBySlot(v: Vault, s: Swap, x: Id) {
    || s.now == Some(x)
    || (x in s.puts && IsInline(s.puts[x]))
    || (Kept(s) && InlineAt(v, s.prior) == Some(x))
  }

  lemma ConfigsNow(v: Vault, a: Assembly, w: Vault, c: Id)
    requires Assembled(v, a) && Makes(v, a, w)
    ensures c in ConfigsOf(w, a.o) <==> exists k :: 0 <= k < SLOTS && a.swaps[k].now == Some(c)
  {
    if a.owner.Some? { SlotsAreConfigs(a.owner.value, c); }
    if c in ConfigsOf(w, a.o) {
      var k :| 0 <= k < SLOTS && SlotRef(a.owner.value, k) == Some(c);
      assert a.swaps[k].now == Some(c);
    }
    if k :| 0 <= k < SLOTS && a.swaps[k].now == Some(c) {
      assert SlotRef(a.owner.value, k) == Some(c);
    }
  }

  /** All that slot `s` puts is in `w`. */
  predicate PutsLand(s: Swap, w: Vault) { forall x :: x in s.puts ==> x in w && w[x] == s.puts[x] }

  lemma InlineOfSwapped(v: Vault, s: Swap, w: Vault)
    requires Swapped(v, s) && PutsLand(s, w) && s.sort in {SshS, TelnetS, WebDavS}
    requires forall i :: i in v && v[i].IdentityP? && v[i].identity.isVisible ==> i in w && w[i] == v[i]
    ensures InlineAt(w, s.now).Some? ==> InlineAt(w, s.now).value in s.puts
    ensures forall x :: x in s.puts && IsInline(s.puts[x]) ==> InlineAt(w, s.now) == Some(x)
  {
  }

  lemma AllVisibleStand(v: Vault, a: Assembly, w: Vault)
    requires Assembled(v, a) && Makes(v, a, w)
    ensures forall i :: i in v && v[i].IdentityP? && v[i].identity.isVisible ==> i in w && w[i] == v[i]
  {
    forall i | i in v && v[i].IdentityP? && v[i].identity.isVisible
      ensures i in w && w[i] == v[i]
    {
      VisibleStands(v, a, w, i);
    }
  }

  lemma SlotLands(v: Vault, a: Assembly, w: Vault, k: nat)
    requires |a.swaps| == SLOTS && Makes(v, a, w) && k < SLOTS
    ensures PutsLand(a.swaps[k], w)
  {
  }

  /** The inline identity behind the config a slot holds now. */
  lemma InlineNow(v: Vault, a: Assembly, w: Vault, k: nat)
    requires Assembled(v, a) && Makes(v, a, w) && k < SLOTS
    ensures InlineAt(w, a.swaps[k].now).Some? ==> HeldBySlot(v, a.swaps[k], InlineAt(w, a.swaps[k].now).value)
    ensures forall x :: x in a.swaps[k].puts && IsInline(a.swaps[k].puts[x]) ==> InlineAt(w, a.swaps[k].now) == Some(x)
  {
    hide Assembled, Makes;
    var s := SlotFacts(v, a, k);
    if Kept(s) {
      if s.prior.Some? { KeptStands(v, a, w, k); }
    } else {
      AllVisibleStand(v, a, w);
      SlotLands(v, a, w, k);
      InlineOfSwapped(v, s, w);
      if InlineAt(w, s.now).Some? { assert s.puts[InlineAt(w, s.now).value] == w[InlineAt(w, s.now).value]; }
    }
  }

  /** `o`'s things afterwards are exactly what its slots hold. */
  lemma MineNow(v: Vault, a: Assembly, w: Vault, x: Id)
    requires Assembled(v, a) && Makes(v, a, w)
    ensures x in Mine(w, a.o) ==> HasNow(v, a, x)
    ensures forall k :: 0 <= k < SLOTS && a.swaps[k].now == Some(x) ==> x in Mine(w, a.o)
    ensures forall k :: 0 <= k < SLOTS && x in a.swaps[k].puts && IsInline(a.swaps[k].puts[x]) ==> x in Mine(w, a.o)
    ensures forall k :: 0 <= k < SLOTS && InlineAt(w, a.swaps[k].now) == Some(x) ==> x in Mine(w, a.o)
  {
    ConfigsNow(v, a, w, x);
    if x in InlineOf(w, ConfigsOf(w, a.o)) {
      var c :| c in ConfigsOf(w, a.o) && c in w && InlineAt(w, Some(c)) == Some(x);
      ConfigsNow(v, a, w, c);
      var k :| 0 <= k < SLOTS && a.swaps[k].now == Some(c);
      InlineNow(v, a, w, k);
      assert HeldBySlot(v, a.swaps[k], x);
    } else if x in ConfigsOf(w, a.o) {
      var k :| 0 <= k < SLOTS && a.swaps[k].now == Some(x);
      assert HeldBySlot(v, a.swaps[k], x);
    }
    forall k | 0 <= k < SLOTS && InlineAt(w, a.swaps[k].now) == Some(x)
      ensures x in Mine(w, a.o)
    {
      ConfigsNow(v, a, w, a.swaps[k].now.value);
      assert x in InlineOf(w, ConfigsOf(w, a.o));
    }
    forall k | 0 <= k < SLOTS && x in a.swaps[k].puts && IsInline(a.swaps[k].puts[x])
      ensures InlineAt(w, a.swaps[k].now) == Some(x)
    {
      InlineNow(v, a, w, k);
    }
  }

  /** What `o` had before: each slot's config and inline identity. */
  lemma MineBefore(v: Vault, a: Assembly, x: Id)
    requires Assembled(v, a)
    ensures x in Mine(v, a.o) <==>
      x == a.o || exists k :: 0 <= k < SLOTS && HadBySlot(v, a.swaps[k], x)
  {
    if k :| 0 <= k < SLOTS && HadBySlot(v, a.swaps[k], x) {
      PriorPoints(v, a, k);
      assert x in ConfigsOf(v, a.o) || x in InlineOf(v, ConfigsOf(v, a.o));
    }
    if x in ConfigsOf(v, a.o) {
      SlotsAreConfigs(v[a.o], x);
      var k :| 0 <= k < SLOTS && SlotRef(v[a.o], k) == Some(x);
      assert HadBySlot(v, a.swaps[k], x);
    } else if x in InlineOf(v, ConfigsOf(v, a.o)) {
      var c :| c in ConfigsOf(v, a.o) && c in v && InlineAt(v, Some(c)) == Some(x);
      SlotsAreConfigs(v[a.o], c);
      var k :| 0 <= k < SLOTS && SlotRef(v[a.o], k) == Some(c);
      assert HadBySlot(v, a.swaps[k], x);
    }
  }

  lemma HadIsMine(v: Vault, a: Assembly, k: nat, x: Id)
    requires Assembled(v, a) && k < SLOTS && HadBySlot(v, a.swaps[k], x)
    ensures x in Mine(v, a.o)
  {
    MineBefore(v, a, x);
  }

  /** A thing a slot holds now was its own before or is new. */
  lemma HeldIsOldOrNew(v: Vault, a: Assembly, k: nat, x: Id)
    requires Assembled(v, a) && k < SLOTS && HeldBySlot(v, a.swaps[k], x) && x in v
    ensures HadBySlot(v, a.swaps[k], x)
  {
    var s := SlotFacts(v, a, k);
  }

  lemma DropsGo(v: Vault, a: Assembly, w: Vault, k: nat, x: Id)
    requires |a.swaps| == SLOTS && Makes(v, a, w) && k < SLOTS && x in a.swaps[k].drops
    ensures x !in w
  {
    assert DroppedBySlot(a, x);
  }

  lemma KeyPut(v: Vault, s: Swap, x: Id)
    requires (Swapped(v, s) || Kept(s)) && s.sort in {SshS, TelnetS, WebDavS} && x in s.puts && s.puts[x].SshKeyP?
    ensures PutsKey(v, s, x)
  {
  }

  lemma KeyDropped(v: Vault, s: Swap, x: Id)
    requires (Swapped(v, s) || Kept(s)) && Points(v, s.prior, s.sort) && s.sort in {SshS, TelnetS, WebDavS}
    requires x in s.drops && x in v && v[x].SshKeyP?
    ensures DropsKey(v, s, x)
  {
  }

  /** A thing a slot had and that survives is held by it now. */
  lemma HadSurvives(v: Vault, a: Assembly, w: Vault, k: nat, x: Id)
    requires Assembled(v, a) && Makes(v, a, w) && k < SLOTS && HadBySlot(v, a.swaps[k], x) && x in w
    ensures x in Mine(w, a.o)
  {
    var s := SlotFacts(v, a, k);
    MineNow(v, a, w, x);
    if Kept(s) {
      KeptStands(v, a, w, k);
    } else {
      SlotLands(v, a, w, k);
      if x in s.drops { DropsGo(v, a, w, k, x); }
      if s.prior != Some(x) { assert IsInline(s.puts[x]) by { InlinePutBack(v, s, x); } }
    }
  }

  /** An inline identity that is not dropped is rewritten as one. */
  lemma InlinePutBack(v: Vault, s: Swap, x: Id)
    requires Closed(v) && Swapped(v, s) && Points(v, s.prior, s.sort) && s.sort in {SshS, TelnetS, WebDavS}
    requires InlineAt(v, s.prior) == Some(x) && x !in s.drops
    ensures x in s.puts && IsInline(s.puts[x])
  {
    assert Some(x) == s.now ==> s.now == s.prior || s.Fresh(x);
  }

  lemma MineIsStable(v: Vault, a: Assembly, w: Vault)
    requires Assembled(v, a) && Makes(v, a, w)
    ensures MineStable(v, w, RewiringOf(v, a, w))
  {
    forall x | x in Mine(w, a.o) && x in v
      ensures x in Mine(v, a.o)
    {
      MineNow(v, a, w, x);
      if x != a.o {
        var k :| 0 <= k < SLOTS && HeldBySlot(v, a.swaps[k], x);
        HeldIsOldOrNew(v, a, k, x);
        HadIsMine(v, a, k, x);
      }
    }
    forall x | x in Mine(v, a.o) && x in w
      ensures x in Mine(w, a.o)
    {
      MineBefore(v, a, x);
      if x != a.o {
        var k :| 0 <= k < SLOTS && HadBySlot(v, a.swaps[k], x);
        HadSurvives(v, a, w, k, x);
      }
    }
  }

  /** Whatever a slot puts or drops belongs to the rewiring. */
  lemma SlotStaysInside(v: Vault, a: Assembly, w: Vault, k: nat, x: Id)
    requires Assembled(v, a) && Makes(v, a, w) && k < SLOTS && (x in a.swaps[k].puts || x in a.swaps[k].drops)
    ensures x in Mine(v, a.o) || x in Mine(w, a.o) || x in SwapKeys(v, a.swaps[k])
  {
    var s := SlotFacts(v, a, k);
    MineNow(v, a, w, x);
    MineBefore(v, a, x);
    if x in s.puts {
      assert Some(x) == s.now || PutsInline(v, s, x) || PutsKey(v, s, x);
    } else {
      assert HadBySlot(v, s, x) || DropsKey(v, s, x);
    }
  }

  lemma OthersAreKept(v: Vault, a: Assembly, w: Vault)
    requires Assembled(v, a) && Makes(v, a, w)
    ensures OthersKept(v, w, RewiringOf(v, a, w))
  {
    var r := RewiringOf(v, a, w);
    forall x | x !in r.was && x !in r.now && x !in r.keys && x !in r.tags
      ensures (x in v <==> x in w) && (x in v && x in w ==> KeepsConfigs(v[x], w[x]))
    {
      OutsideIsUntouched(v, a, w, x);
    }
  }

  lemma OutsideIsUntouched(v: Vault, a: Assembly, w: Vault, x: Id)
    requires Assembled(v, a) && Makes(v, a, w)
    requires var r := RewiringOf(v, a, w); x !in r.was && x !in r.now && x !in r.keys
    ensures !PutBySlot(a, x) && !DroppedBySlot(a, x)
  {
    KeysInRewiring(v, a, w, x);
    if k :| 0 <= k < SLOTS && (x in a.swaps[k].puts || x in a.swaps[k].drops) {
      SlotStaysInside(v, a, w, k, x);
    }
  }

  lemma SlotKeys(v: Vault, a: Assembly, w: Vault, k: nat, x: Id)
    requires Assembled(v, a) && Makes(v, a, w) && k < SLOTS && x in SwapKeys(v, a.swaps[k])
    ensures (x in v ==> v[x].SshKeyP?) && (x in w ==> w[x].SshKeyP?)
    ensures forall y :: x !in w && y in v && KeyRef(v[y]) == Some(x) ==> y in Mine(v, a.o)
  {
    var s := SlotFacts(v, a, k);
    SlotLands(v, a, w, k);
    assert forall y :: y in v ==> y < s.lo;
    if x in s.puts {
      KeyPut(v, s, x);
    } else {
      DropsGo(v, a, w, k, x);
      KeyDropped(v, s, x);
      forall y | y in v && KeyRef(v[y]) == Some(x)
        ensures y in Mine(v, a.o)
      {
        assert NamesKey(v, y, x);
        HadIsMine(v, a, k, y);
      }
    }
  }

  /** Every assembly of slots is a rewiring of its owner. */
  lemma AssemblyIsRewiring(v: Vault, a: Assembly, w: Vault)
    requires Assembled(v, a) && Makes(v, a, w)
    ensures Rewired(v, w, RewiringOf(v, a, w))
  {
    var r := RewiringOf(v, a, w);
    OthersAreKept(v, a, w);
    MineIsStable(v, a, w);
    assert KeysKept(v, w, r) by {
      forall x | x in r.keys
        ensures (x in v ==> v[x].SshKeyP?) && (x in w ==> w[x].SshKeyP?)
        ensures forall y :: x !in w && y in v && KeyRef(v[y]) == Some(x) ==> y in r.was
      {
        KeysInRewiring(v, a, w, x);
        var k :| 0 <= k < SLOTS && x in SwapKeys(v, a.swaps[k]);
        SlotKeys(v, a, w, k, x);
      }
    }
  }

  // ----- the references a plan makes -----

  function Regrouped(p: Payload, g: Option<Id>): Payload {
    match p
    case HostP(h) => HostP(h.(groupId := g))
    case GroupP(c) => GroupP(c.(parentId := g))
    case _ => p
  }

  /** The links a plan sets by hand lead somewhere: the owner's tags and group,
      the new group of everything moved; and nothing stays in a group that goes. */
  ghost predicate LinksOk(v: Vault, a: Assembly, w: Vault) {
    && (a.owner.Some? ==> Points(w, GroupRef(a.owner.value), GroupS))
    && (a.owner.Some? && a.owner.value.HostP? ==>
          forall t :: t in a.owner.value.host.tagIds ==> Points(w, Some(t), TagS))
    && (forall x :: x in a.moved && x in v ==>
          a.moved[x] == Regrouped(v[x], GroupRef(a.moved[x])) && Points(w, GroupRef(a.moved[x]), GroupS))
    && (a.owner.None? ==> forall x :: x in w ==> GroupRef(w[x]) != Some(a.o))
    && KeysLinked(a, w)
  }

  /** The keys that newly put identities name are there. */
  ghost predicate KeysLinked(a: Assembly, w: Vault) {
    forall k, x :: 0 <= k < |a.swaps| && x in a.swaps[k].puts ==> Points(w, KeyRef(a.swaps[k].puts[x]), KeyS)
  }

  lemma KeysPutLink(a: Assembly, w: Vault)
    requires SlotsMade(a, w) && forall k :: 0 <= k < |a.swaps| ==> KeysPut(a.swaps[k])
    ensures KeysLinked(a, w)
  {
    forall k, x | 0 <= k < |a.swaps| && x in a.swaps[k].puts
      ensures Points(w, KeyRef(a.swaps[k].puts[x]), KeyS)
    {
      assert KeysPut(a.swaps[k]);
    }
  }

  lemma NowPoints(v: Vault, a: Assembly, w: Vault, k: nat)
    requires Assembled(v, a) && Makes(v, a, w) && k < SLOTS
    ensures Points(w, a.swaps[k].now, SlotSort(k))
  {
    var s := SlotFacts(v, a, k);
    if s.now.Some? {
      if Kept(s) { KeptThingStands(v, a, w, k, s.now.value); } else { SlotLands(v, a, w, k); }
    }
  }

  lemma OwnerIsLinked(v: Vault, a: Assembly, w: Vault)
    requires Assembled(v, a) && Makes(v, a, w) && LinksOk(v, a, w) && a.owner.Some?
    ensures RefsOk(w, a.owner.value)
  {
    NowPoints(v, a, w, 0);
    NowPoints(v, a, w, 1);
    NowPoints(v, a, w, 2);
    var p := a.owner.value;
    assert Points(w, SlotRef(p, 0), SshS) && Points(w, SlotRef(p, 1), TelnetS) && Points(w, SlotRef(p, 2), WebDavS);
  }

  /** A key no slot drops is still a key. */
  lemma KeyStands(v: Vault, a: Assembly, w: Vault, x: Id)
    requires Assembled(v, a) && Makes(v, a, w) && x in v && v[x].SshKeyP? && !DroppedBySlot(a, x)
    ensures x in w && w[x].SshKeyP?
  {
    if PutBySlot(a, x) {
      var j :| 0 <= j < |a.swaps| && x in a.swaps[j].puts;
      var s := SlotFacts(v, a, j);
      OldKeyPut(v, s, x);
      SlotLands(v, a, w, j);
    } else {
      assert x != a.o && x !in a.tags && x !in a.moved;
    }
  }

  /** A slot drops no key that an identity other than its own names. */
  lemma NamedKeyNotDropped(v: Vault, a: Assembly, k: nat, j: nat, h: Id, x: Id)
    requires Assembled(v, a) && k < SLOTS && j < SLOTS && Kept(a.swaps[k]) && InlineAt(v, a.swaps[k].prior) == Some(h)
    requires KeyRef(v[h]) == Some(x) && x in v && v[x].SshKeyP?
    ensures x !in a.swaps[j].drops
  {
    var s := SlotFacts(v, a, j);
    if x in s.drops {
      StrangeToOthers(v, a, k, j, h);
      KeyDropped(v, s, x);
      assert NamesKey(v, h, x);
    }
  }

  /** A key some untouched inline identity names survives every slot. */
  lemma KeptKeyStands(v: Vault, a: Assembly, w: Vault, k: nat, h: Id, key: Id)
    requires Assembled(v, a) && Makes(v, a, w) && k < SLOTS && Kept(a.swaps[k]) &&
        InlineAt(v, a.swaps[k].prior) == Some(h)
    requires KeyRef(v[h]) == Some(key) && key in v && v[key].SshKeyP?
    ensures key in w && w[key].SshKeyP?
  {
    forall j | 0 <= j < SLOTS
      ensures key !in a.swaps[j].drops
    {
      NamedKeyNotDropped(v, a, k, j, h, key);
    }
    KeyStands(v, a, w, key);
  }

  lemma OldKeyPut(v: Vault, s: Swap, x: Id)
    requires Closed(v) && Swapped(v, s) && Points(v, s.prior, s.sort) && s.sort in {SshS, TelnetS, WebDavS}
    requires (forall y :: y in v ==> y < s.lo) && x in v && v[x].SshKeyP? && x in s.puts
    ensures s.puts[x].SshKeyP?
  {
    PutTouches(v, s, x);
  }

  lemma ConfigRefsCopied(v: Vault, w: Vault, c: Payload)
    requires IsConfig(c) && RefsOk(v, c)
    requires IdentityRef(c).Some? ==> IdentityRef(c).value in w && w[IdentityRef(c).value] == v[IdentityRef(c).value]
    ensures RefsOk(w, c)
  {
  }

  lemma InlineRefsCopied(v: Vault, w: Vault, i: Payload)
    requires IsInline(i) && RefsOk(v, i)
    requires KeyRef(i).Some? ==> KeyRef(i).value in w && w[KeyRef(i).value].SshKeyP?
    ensures RefsOk(w, i)
  {
  }

  lemma KeptConfigIsLinked(v: Vault, a: Assembly, w: Vault, k: nat, c: Id)
    requires Assembled(v, a) && Makes(v, a, w) && k < SLOTS && Kept(a.swaps[k]) && a.swaps[k].prior == Some(c)
    ensures c in v && RefsOk(w, v[c])
  {
    hide Assembled, Makes;
    var d := PriorIsConfig(v, a, k);
    var i := IdentityRef(v[c]);
    if i.Some? { KeptIdentityStands(v, a, w, k, c, i.value); }
    ConfigRefsCopied(v, w, v[c]);
  }

  lemma InlineHasRefs(v: Vault, a: Assembly, k: nat, h: Id)
    requires Assembled(v, a) && k < SLOTS && InlineAt(v, a.swaps[k].prior) == Some(h)
    ensures h in v && IsInline(v[h]) && RefsOk(v, v[h])
    ensures KeyRef(v[h]).Some? ==> KeyRef(v[h]).value in v && v[KeyRef(v[h]).value].SshKeyP?
  {
    hide SlotsFit, IdsFresh, OwnerFits, SlotsApart, ConfigsUnshared, InlineUnshared, NoOrphans;
    assert RefsOk(v, v[h]);
  }

  lemma KeptInlineIsLinked(v: Vault, a: Assembly, w: Vault, k: nat, h: Id)
    requires Assembled(v, a) && Makes(v, a, w) && k < SLOTS && Kept(a.swaps[k]) &&
        InlineAt(v, a.swaps[k].prior) == Some(h)
    ensures RefsOk(w, v[h])
  {
    hide *;
    InlineHasRefs(v, a, k, h);
    var key := KeyRef(v[h]);
    if key.Some? { KeptKeyStands(v, a, w, k, h, key.value); }
    InlineRefsCopied(v, w, v[h]);
  }

  lemma KeptIsLinked(v: Vault, a: Assembly, w: Vault, k: nat, x: Id)
    requires Assembled(v, a) && Makes(v, a, w) && k < SLOTS && Kept(a.swaps[k]) && HadBySlot(v, a.swaps[k], x)
    ensures x in w && RefsOk(w, w[x])
  {
    var s := SlotFacts(v, a, k);
    hide Assembled, Makes;
    KeptThingStands(v, a, w, k, x);
    if s.prior == Some(x) {
      KeptConfigIsLinked(v, a, w, k, x);
    } else {
      KeptInlineIsLinked(v, a, w, k, x);
    }
  }

  lemma HeldIsLinked(v: Vault, a: Assembly, w: Vault, k: nat, x: Id)
    requires Assembled(v, a) && Makes(v, a, w) && KeysLinked(a, w) && k < SLOTS && HeldBySlot(v, a.swaps[k], x)
    ensures x in w && RefsOk(w, w[x])
  {
    var s := SlotFacts(v, a, k);
    if Kept(s) {
      KeptIsLinked(v, a, w, k, x);
    } else {
      AllVisibleStand(v, a, w);
      SlotLands(v, a, w, k);
      HeldPutIsLinked(v, s, w, x);
    }
  }

  lemma HeldPutIsLinked(v: Vault, s: Swap, w: Vault, x: Id)
    requires Swapped(v, s) && PutsLand(s, w) && s.sort in {SshS, TelnetS, WebDavS}
    requires forall i :: i in v && v[i].IdentityP? && v[i].identity.isVisible ==> i in w && w[i] == v[i]
    requires x in s.puts && Points(w, KeyRef(s.puts[x]), KeyS)
    ensures RefsOk(w, w[x])
  {
    assert Some(x) == s.now || PutsInline(v, s, x) || PutsKey(v, s, x);
  }

  lemma RegroupedRefs(w: Vault, p: Payload, g: Option<Id>)
    requires IsOwner(p) && OwnerRefsOk(w, p) && Points(w, g, GroupS)
    ensures RefsOk(w, Regrouped(p, g))
  {
  }

  /** A moved member keeps its own references; only its group changed. */
  lemma MovedIsLinked(v: Vault, a: Assembly, w: Vault, x: Id)
    requires Assembled(v, a) && Makes(v, a, w) && LinksOk(v, a, w) && x in a.moved
    ensures RefsOk(w, w[x])
  {
    assert x !in Mine(v, a.o) by {
      if x in Mine(v, a.o) { MineSorts(v, a.o, x); }
    }
    AssemblyIsRewiring(v, a, w);
    hide Rewired, Makes, WellFormed;
    OwnerRefsStand(v, w, RewiringOf(v, a, w), x);
    RegroupedRefs(w, v[x], GroupRef(a.moved[x]));
  }

  lemma AssemblyRefsOk(v: Vault, a: Assembly, w: Vault)
    requires Assembled(v, a) && Makes(v, a, w) && LinksOk(v, a, w)
    ensures NewRefsOk(v, w, RewiringOf(v, a, w))
  {
    var r := RewiringOf(v, a, w);
    forall x | x in w && (x in r.now || x !in v || w[x] != v[x])
      ensures RefsOk(w, w[x])
    {
      ChangedIsLinked(v, a, w, x);
    }
  }

  lemma ChangedIsLinked(v: Vault, a: Assembly, w: Vault, x: Id)
    requires Assembled(v, a) && Makes(v, a, w) && LinksOk(v, a, w)
    requires x in w && (x in Mine(w, a.o) || x !in v || w[x] != v[x])
    ensures RefsOk(w, w[x])
  {
    if x == a.o {
      OwnerIsLinked(v, a, w);
    } else if x in a.moved {
      MovedIsLinked(v, a, w, x);
    } else if x in Mine(w, a.o) {
      MineNow(v, a, w, x);
      var k :| 0 <= k < SLOTS && HeldBySlot(v, a.swaps[k], x);
      HeldIsLinked(v, a, w, k, x);
    } else if x !in a.tags {
      ChangeIsPut(v, a, w, x);
      var k :| 0 <= k < |a.swaps| && x in a.swaps[k].puts;
      PutIsLinked(v, a, w, k, x);
    }
  }

  lemma ChangeIsPut(v: Vault, a: Assembly, w: Vault, x: Id)
    requires Makes(v, a, w) && x in w && (x !in v || w[x] != v[x])
    requires x != a.o && x !in a.moved && x !in a.tags
    ensures PutBySlot(a, x)
  {
    assert !DroppedBySlot(a, x);
  }

  lemma PutIsLinked(v: Vault, a: Assembly, w: Vault, k: nat, x: Id)
    requires Assembled(v, a) && Makes(v, a, w) && KeysLinked(a, w) && k < SLOTS && x in a.swaps[k].puts
    ensures x in w && RefsOk(w, w[x])
  {
    var s := SlotFacts(v, a, k);
    AllVisibleStand(v, a, w);
    SlotLands(v, a, w, k);
    HeldPutIsLinked(v, s, w, x);
  }

  /** The slots of one owner never end up with one inline identity between them. */
  lemma OwnInlineApart(v: Vault, a: Assembly, w: Vault)
    requires Assembled(v, a) && Makes(v, a, w)
    ensures OwnInlineUnshared(w, a.o)
  {
    forall c, d, i |
      c in ConfigsOf(w, a.o) && d in ConfigsOf(w, a.o) && i in w && IsInline(w[i]) && Uses(w, c, i) && Uses(w, d, i)
      ensures c == d
    {
      ConfigsNow(v, a, w, c);
      ConfigsNow(v, a, w, d);
      var j :| 0 <= j < SLOTS && a.swaps[j].now == Some(c);
      var k :| 0 <= k < SLOTS && a.swaps[k].now == Some(d);
      if j != k {
        InlineNow(v, a, w, j);
        InlineNow(v, a, w, k);
        HeldInlineApart(v, a, w, j, k, i);
      }
    }
  }

  lemma HeldInlineApart(v: Vault, a: Assembly, w: Vault, j: nat, k: nat, i: Id)
    requires Assembled(v, a) && Makes(v, a, w) && j < SLOTS && k < SLOTS && j != k
    requires i in w && IsInline(w[i])
    ensures !(HeldBySlot(v, a.swaps[j], i) && HeldBySlot(v, a.swaps[k], i))
  {
    if HeldBySlot(v, a.swaps[j], i) && HeldBySlot(v, a.swaps[k], i) {
      NowPoints(v, a, w, j);
      NowPoints(v, a, w, k);
      NowIsNoIdentity(w, a.swaps[j].now, j, i);
      NowIsNoIdentity(w, a.swaps[k].now, k, i);
      if i in v {
        HeldIsOldOrNew(v, a, j, i);
        HeldIsOldOrNew(v, a, k, i);
        StrangeToOthers(v, a, j, k, i);
      } else {
        NewInlineIsPut(v, a, j, i);
        NewInlineIsPut(v, a, k, i);
      }
    }
  }

  lemma NowIsNoIdentity(w: Vault, now: Option<Id>, k: nat, i: Id)
    requires Points(w, now, SlotSort(k)) && i in w && IsInline(w[i])
    ensures now != Some(i)
  {
  }

  lemma NewInlineIsPut(v: Vault, a: Assembly, k: nat, i: Id)
    requires Assembled(v, a) && k < SLOTS && HeldBySlot(v, a.swaps[k], i) && a.swaps[k].now != Some(i) && i !in v
    ensures i in a.swaps[k].puts
  {
  }

  /** The main step: a vault stays well-formed under every assembly whose links lead somewhere. */
  lemma AssemblyKeepsWellFormed(v: Vault, a: Assembly, w: Vault)
    requires Assembled(v, a) && Makes(v, a, w) && LinksOk(v, a, w)
    ensures WellFormed(w)
  {
    AssemblyIsRewiring(v, a, w);
    AssemblyRefsOk(v, a, w);
    hide Rewired, Makes, WellFormed, NewRefsOk;
    OwnInlineApart(v, a, w);
    RewiringKeepsWellFormed(v, w, RewiringOf(v, a, w));
  }

  /** Hosts, groups, tags and serial configs the plan does not name are as they were. */
  lemma BystanderStands(v: Vault, a: Assembly, w: Vault, x: Id)
    requires Assembled(v, a) && Makes(v, a, w) && x in v && x != a.o && x !in a.moved
    requires SortOf(v[x]) in {HostS, GroupS, TagS, SerialS}
    ensures x in w && w[x] == v[x]
  {
    forall k | 0 <= k < SLOTS
      ensures x !in a.swaps[k].puts && x !in a.swaps[k].drops
    {
      var s := SlotFacts(v, a, k);
      if !Kept(s) { BystanderToSwap(v, s, x); }
    }
  }

  lemma BystanderToSwap(v: Vault, s: Swap, x: Id)
    requires Closed(v) && Swapped(v, s) && Points(v, s.prior, s.sort) && s.sort in {SshS, TelnetS, WebDavS}
    requires (forall y :: y in v ==> y < s.lo) && x in v && SortOf(v[x]) in {HostS, GroupS, TagS, SerialS}
    ensures x !in s.puts && x !in s.drops
  {
  }
}
