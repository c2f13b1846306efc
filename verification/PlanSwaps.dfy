/** What one config slot of a plan does to the vault, stated once for SSH,
    Telnet and WebDAV slots, and the proof that every planned slot does just that. */
module PlanSwaps {
  import opened Wrappers
  import opened Schema
  import opened VaultGraph
  import opened BridgePlans

  /** A slot that held config `prior` and will hold `now`; random ids are drawn from `[lo, hi)`. */
  datatype Swap = Swap(
    sort: Sort, prior: Option<Id>, now: Option<Id>, puts: map<Id, Payload>, drops: set<Id>, lo: Id, hi: Id)
  {
    predicate Fresh(x: Id) { lo <= x < hi }
  }

  /** The inline identity behind a config. */
  function InlineAt(v: Vault, c: Option<Id>): Option<Id> {
    if c.Some? && c.value in v && IdentityRef(v[c.value]).Some? &&
       IdentityRef(v[c.value]).value in v && IsInline(v[IdentityRef(v[c.value]).value])
    then IdentityRef(v[c.value]) else None
  }

  /** `k` is the key of the inline identity `h`. */
  predicate KeyOfInline(v: Vault, h: Option<Id>, k: Id) {
    h.Some? && h.value in v && KeyRef(v[h.value]) == Some(k) && k in v && v[k].SshKeyP?
  }

  /** The new config is put, and is the old one or a new id. */
  predicate ConfigPut(s: Swap) {
    s.now.Some? ==>
      && s.now.value in s.puts && SortOf(s.puts[s.now.value]) == s.sort
      && (s.now == s.prior || s.Fresh(s.now.value))
  }

  predicate PutsInline(v: Vault, s: Swap, x: Id)
    requires x in s.puts
  {
    && IsInline(s.puts[x]) && (Some(x) == InlineAt(v, s.prior) || s.Fresh(x))
    && s.now.Some? && s.now.value in s.puts && IdentityRef(s.puts[s.now.value]) == Some(x)
  }

  predicate PutsKey(v: Vault, s: Swap, x: Id)
    requires x in s.puts
  {
    s.puts[x].SshKeyP? && (KeyOfInline(v, InlineAt(v, s.prior), x) || s.Fresh(x))
  }

  ghost predicate OnlyOwnPuts(v: Vault, s: Swap) {
    forall x :: x in s.puts ==> Some(x) == s.now || PutsInline(v, s, x) || PutsKey(v, s, x)
  }

  ghost predicate DropsKey(v: Vault, s: Swap, x: Id) {
    KeyOfInline(v, InlineAt(v, s.prior), x) && forall y: Id :: NamesKey(v, y, x) ==> Some(y) == InlineAt(v, s.prior)
  }

  ghost predicate OnlyOwnDrops(v: Vault, s: Swap) {
    forall x :: x in s.drops ==> Some(x) == s.prior || Some(x) == InlineAt(v, s.prior) || DropsKey(v, s, x)
  }

  /** What the slot gives up is dropped: the old config, and the old inline identity unless it is rewritten. */
  predicate GivesUpOld(v: Vault, s: Swap) {
    && (s.prior.Some? && s.now != s.prior ==> s.prior.value in s.drops)
    && (InlineAt(v, s.prior).Some? && InlineAt(v, s.prior).value !in s.drops ==>
          && InlineAt(v, s.prior).value in s.puts
          && s.now.Some? && s.now.value in s.puts && IdentityRef(s.puts[s.now.value]) == InlineAt(v, s.prior))
  }

  /** The new config names an identity that is put with it or one from the keychain. */
  ghost predicate PutsRefer(v: Vault, s: Swap) {
    s.now.Some? && s.now.value in s.puts && IdentityRef(s.puts[s.now.value]).Some? ==>
      var i := IdentityRef(s.puts[s.now.value]).value;
      (i in s.puts && IsInline(s.puts[i])) ||
        (i !in s.puts && i !in s.drops && i in v && v[i].IdentityP? && v[i].identity.isVisible)
  }

  /** Identities name keys put with them. */
  ghost predicate KeysPut(s: Swap) {
    forall x :: x in s.puts && KeyRef(s.puts[x]).Some? ==>
      KeyRef(s.puts[x]).value in s.puts && s.puts[KeyRef(s.puts[x]).value].SshKeyP?
  }

  /** A slot replaced, filled or emptied by a plan. */
  ghost predicate Swapped(v: Vault, s: Swap) {
    && s.lo <= s.hi && s.puts.Keys !! s.drops
    && ConfigPut(s) && OnlyOwnPuts(v, s) && OnlyOwnDrops(v, s) && GivesUpOld(v, s) && PutsRefer(v, s)
  }

  /** A slot the plan leaves alone. */
  predicate Kept(s: Swap) { s.now == s.prior && s.puts == map[] && s.drops == {} && s.lo == s.hi }

  /** A mirror a plan may rely on: readable, well-formed, all ids drawn before `next`. */
  ghost predicate Plannable(w: View, next: Id) {
    && w.Valid() && w.known == w.data.Keys && WellFormed(w.data)
    && forall id :: id in w.data ==> id < next
  }

  lemma DropKeyDrops(w: View, h: Id, x: Id)
    requires w.Valid() && h in w.data && IsInline(w.data[h]) && Closed(w.data)
    requires x in DropKey(w, h, KeyRef(w.data[h]))
    ensures KeyOfInline(w.data, Some(h), x) && forall y: Id :: NamesKey(w.data, y, x) ==> y == h
  {
    assert RefsOk(w.data, w.data[h]);
  }

  /** What planning a login around inline identity `h` may put and drop, with ids drawn from `[lo, e.next)`. */
  predicate LoginPuts(v: Vault, h: Option<Id>, lo: Id, e: Edit, now: Option<Id>) {
    forall x :: x in e.puts ==>
      || (IsInline(e.puts[x]) && now == Some(x) && (Some(x) == h || lo <= x < e.next))
      || (e.puts[x].SshKeyP? && (KeyOfInline(v, h, x) || lo <= x < e.next))
  }

  ghost predicate LoginDrops(v: Vault, h: Option<Id>, e: Edit) {
    forall x :: x in e.drops ==>
      Some(x) == h || (KeyOfInline(v, h, x) && forall y: Id :: NamesKey(v, y, x) ==> Some(y) == h)
  }

  predicate LoginGivesUp(h: Option<Id>, e: Edit, now: Option<Id>) {
    h.Some? ==> h.value in e.drops || (now == h && h.value in e.puts)
  }

  predicate LoginRefers(v: Vault, e: Edit, now: Option<Id>) {
    && (now.Some? ==>
          if now.value in e.puts then IsInline(e.puts[now.value])
          else
            && now.value !in e.drops && now.value in v
            && v[now.value].IdentityP? && v[now.value].identity.isVisible)
    && (forall x :: x in e.puts && KeyRef(e.puts[x]).Some? ==>
          KeyRef(e.puts[x]).value in e.puts && e.puts[KeyRef(e.puts[x]).value].SshKeyP?)
  }

  ghost predicate Login(v: Vault, h: Option<Id>, lo: Id, e: Edit, now: Option<Id>) {
    && lo <= e.next && e.puts.Keys !! e.drops
    && LoginPuts(v, h, lo, e, now) && LoginDrops(v, h, e) && LoginGivesUp(h, e, now) && LoginRefers(v, e, now)
  }

  /** Dropping the key of an inline identity, as far as a login may. */
  lemma DropKeyIsOwn(w: View, h: Option<Id>)
    requires w.Valid() && Closed(w.data) && (h.Some? ==> h.value in w.data && IsInline(w.data[h.value]))
    ensures h.Some? ==> forall x :: x in DropKey(w, h.value, KeyRef(w.data[h.value])) ==>
              KeyOfInline(w.data, h, x) && forall y: Id :: NamesKey(w.data, y, x) ==> Some(y) == h
  {
    if h.Some? {
      forall x | x in DropKey(w, h.value, KeyRef(w.data[h.value]))
        ensures KeyOfInline(w.data, h, x) && forall y: Id :: NamesKey(w.data, y, x) ==> Some(y) == h
      {
        DropKeyDrops(w, h.value, x);
      }
    }
  }

  lemma InlineKey(w: View, next: Id, inline: Option<Id>)
    requires Plannable(w, next) && (inline.Some? ==> inline.value in w.data && IsInline(w.data[inline.value]))
    ensures inline.Some? ==> inline.value < next
    ensures inline.Some? && KeyRef(w.data[inline.value]).Some? ==>
      var k := KeyRef(w.data[inline.value]).value; k in w.data && w.data[k].SshKeyP? && k < next
  {
    if inline.Some? { assert RefsOk(w.data, w.data[inline.value]); }
  }

  /** A login with a key puts the identity and its key, and drops nothing. */
  lemma KeyedShape(w: View, next: Id, inline: Option<Id>, c: Credentials, name: string) returns (id: Id, keyId: Id)
    requires c.key.Some? && (inline.Some? ==> inline.value in w.data && IsInline(w.data[inline.value]))
    ensures id == if inline.Some? then inline.value else next
    ensures var (e, now) := PlanLogin(w, next, inline, c, name);
      && now == id && e.drops == {} && next <= e.next
      && (inline.None? ==> id < e.next)
      && (KeyOfInline(w.data, inline, keyId) || (if inline.Some? then next else next + 1) <= keyId < e.next)
      && (id != keyId ==>
            && e.puts.Keys == {keyId, id} && e.puts[keyId].SshKeyP?
            && IsInline(e.puts[id]) && KeyRef(e.puts[id]) == Some(keyId))
  {
    id := if inline.Some? then inline.value else next;
    var was := if inline.Some? then w.data[inline.value].identity else NewIdentity();
    var k := PlanKey(w, if inline.Some? then next else next + 1, was.sshKeyId, c.key.value, name);
    keyId := k.1;
    assert k.0.puts == map[keyId := KeyPayload(c.key.value, name)];
  }

  lemma KeyedLogin(w: View, next: Id, inline: Option<Id>, c: Credentials, name: string)
    requires Plannable(w, next) && (inline.Some? ==> inline.value in w.data && IsInline(w.data[inline.value]))
    requires c.key.Some?
    ensures
      var (e, id) := PlanLogin(w, next, inline, c, name);
      Login(w.data, inline, next, e, Some(id))
  {
    hide Plannable, WellFormed, PlanLogin;
    InlineKey(w, next, inline);
    var id, keyId := KeyedShape(w, next, inline, c, name);
    assert id != keyId;
  }

  lemma PasswordLogin(w: View, next: Id, inline: Option<Id>, c: Credentials, name: string)
    requires Plannable(w, next) && (inline.Some? ==> inline.value in w.data && IsInline(w.data[inline.value]))
    requires c.key.None?
    ensures
      var (e, id) := PlanLogin(w, next, inline, c, name);
      Login(w.data, inline, next, e, Some(id))
  {
    DropKeyIsOwn(w, inline);
    var (e, id) := PlanLogin(w, next, inline, c, name);
    assert e.puts.Keys == {id} && IsInline(e.puts[id]) && KeyRef(e.puts[id]) == None;
  }

  lemma IdentityIsLogin(w: View, next: Id, prior: Option<Id>, creds: Option<Credentials>, name: string)
    requires Plannable(w, next)
    requires prior.Some? ==> prior.value in w.data && w.data[prior.value].IdentityP?
    ensures
      var (e, now) := PlanIdentity(w, next, prior, creds, name);
      Login(w.data, InlineIdentity(w, prior), next, e, now)
  {
    var h := InlineIdentity(w, prior);
    if creds.Some? && !creds.value.IsEmpty() {
      if creds.value.key.Some? {
        KeyedLogin(w, next, h, creds.value, name);
      } else {
        PasswordLogin(w, next, h, creds.value, name);
      }
    } else {
      DropKeyIsOwn(w, h);
    }
  }

  /** A config put around a login is a swapped slot. */
  lemma ConfigAroundLogin(v: Vault, s: Swap, lo: Id, e: Edit, identity: Option<Id>)
    requires Login(v, InlineAt(v, s.prior), lo, e, identity)
    requires s.now.Some? && s.now.value !in e.puts && s.now.value !in e.drops
    requires s.now.value in v ==> IsConfig(v[s.now.value])
    requires s.now.value in s.puts && s.puts == e.puts[s.now.value := s.puts[s.now.value]] && s.drops == e.drops
    requires SortOf(s.puts[s.now.value]) == s.sort && IsConfig(s.puts[s.now.value])
    requires IdentityRef(s.puts[s.now.value]) == identity
    requires if s.prior.Some? then s.now == s.prior && s.lo == lo else s.now == Some(s.lo) && lo == s.lo + 1
    requires s.hi == e.next
    ensures Swapped(v, s) && KeysPut(s)
  {
    assert forall x :: x in e.puts ==> x in s.puts && s.puts[x] == e.puts[x];
  }

  function SshSwap(w: View, next: Id, prior: Option<Id>, wanted: bool, section: Option<Section>, name: string): Swap {
    var (e, now) := PlanSshSlot(w, next, prior, wanted, section, name);
    Swap(SshS, prior, now, e.puts, e.drops, next, e.next)
  }

  function TelnetSwap(w: View, next: Id, prior: Option<Id>, section: Option<Section>, name: string): Swap {
    var (e, now) := PlanTelnetSlot(w, next, prior, section, name);
    Swap(TelnetS, prior, now, e.puts, e.drops, next, e.next)
  }

  /** Login ids and config ids never meet: the sorts differ and new ids are distinct. */
  lemma LoginApart(w: View, prior: Option<Id>, sort: Sort, lo: Id, e: Edit, identity: Option<Id>, next: Id)
    requires Plannable(w, next) && Points(w.data, prior, sort) && sort in {SshS, TelnetS, WebDavS}
    requires Login(w.data, InlineAt(w.data, prior), lo, e, identity)
    requires if prior.Some? then lo == next else lo == next + 1
    ensures (if prior.Some? then prior.value else next) !in e.puts.Keys + e.drops
  {
  }

  /** Filling a slot: `cfg` goes around the login planned for it. */
  lemma FilledSlot(w: View, s: Swap, identity: Option<Id>, creds: Option<Credentials>, name: string, cfg: Payload)
    requires Plannable(w, s.lo) && Points(w.data, s.prior, s.sort) && s.sort in {SshS, TelnetS, WebDavS}
    requires identity == if s.prior.Some? then IdentityRef(w.data[s.prior.value]) else None
    requires SortOf(cfg) == s.sort
    requires
      var lo := if s.prior.Some? then s.lo else s.lo + 1;
      var (e, i) := PlanIdentity(w, lo, identity, creds, name);
      && s.now == Some(if s.prior.Some? then s.prior.value else s.lo)
      && IdentityRef(cfg) == i && s.puts == e.puts[s.now.value := cfg] && s.drops == e.drops && s.hi == e.next
    ensures Swapped(w.data, s) && KeysPut(s)
  {
    var lo := if s.prior.Some? then s.lo else s.lo + 1;
    var (e, i) := PlanIdentity(w, lo, identity, creds, name);
    if s.prior.Some? { assert RefsOk(w.data, w.data[s.prior.value]); }
    IdentityIsLogin(w, lo, identity, creds, name);
    assert InlineAt(w.data, s.prior) == InlineIdentity(w, identity);
    LoginApart(w, s.prior, s.sort, lo, e, i, s.lo);
    ConfigAroundLogin(w.data, s, lo, e, i);
  }

  /** Emptying a slot: the config goes, its inline identity too, and maybe its key. */
  lemma EmptiedSlot(w: View, s: Swap, keys: set<Id>)
    requires Plannable(w, s.lo) && Points(w.data, s.prior, s.sort)
    requires s.now.None? && s.puts == map[] && s.hi == s.lo
    requires
      var h := InlineAt(w.data, s.prior);
      && (keys != {} ==> h.Some? && keys <= DropKey(w, h.value, KeyRef(w.data[h.value])))
      && s.drops == if s.prior.Some? then Opt(h) + keys + {s.prior.value} else {}
    ensures Swapped(w.data, s) && KeysPut(s)
  {
    DropKeyIsOwn(w, InlineAt(w.data, s.prior));
  }

  lemma SshIsSwapped(w: View, next: Id, prior: Option<Id>, wanted: bool, section: Option<Section>, name: string)
    requires Plannable(w, next) && Points(w.data, prior, SshS)
    ensures Swapped(w.data, SshSwap(w, next, prior, wanted, section, name)) &&
        KeysPut(SshSwap(w, next, prior, wanted, section, name))
  {
    var s := SshSwap(w, next, prior, wanted, section, name);
    var i := if prior.Some? then w.data[prior.value].ssh.identityId else None;
    if wanted {
      FilledSlot(w, s, i, if section.Some? then section.value.credentials else None, name, s.puts[s.now.value]);
    } else {
      var h := InlineAt(w.data, prior);
      EmptiedSlot(w, s, if h.Some? then DropKey(w, h.value, KeyRef(w.data[h.value])) else {});
    }
  }

  lemma TelnetIsSwapped(w: View, next: Id, prior: Option<Id>, section: Option<Section>, name: string)
    requires Plannable(w, next) && Points(w.data, prior, TelnetS)
    ensures Swapped(w.data, TelnetSwap(w, next, prior, section, name)) &&
        KeysPut(TelnetSwap(w, next, prior, section, name))
  {
    var s := TelnetSwap(w, next, prior, section, name);
    var i := if prior.Some? then w.data[prior.value].telnet.identityId else None;
    if section.Some? {
      FilledSlot(w, s, i, section.value.credentials, name, s.puts[s.now.value]);
    } else {
      EmptiedSlot(w, s, {});
    }
  }

  function WebDavSwap(w: View, next: Id, prior: Option<Id>): Swap {
    Swap(WebDavS, prior, None, map[], DropWebDav(w, prior), next, next)
  }

  lemma WebDavIsSwapped(w: View, next: Id, prior: Option<Id>)
    requires Plannable(w, next) && Points(w.data, prior, WebDavS)
    ensures Swapped(w.data, WebDavSwap(w, next, prior))
  {
    EmptiedSlot(w, WebDavSwap(w, next, prior), {});
  }
}
