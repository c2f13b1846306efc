/** Pinned host keys across vaults: what a presented key is judged as, and the
    pin table over runs of trusting, forgetting and importing. */
module HostKeys {
  import opened Schema
  import opened Text

  /** `host` is the canonical form, as OpenSSH writes it. */
  datatype Pin = Pin(vault: nat, host: string, keyType: string, key: string)

  type Pins = map<Id, Pin>

  /** A key as a server presents it. */
  datatype Offer = Offer(host: string, keyType: string, key: string)

  datatype Verdict = Known | Unknown | Changed(pin: Pin)

  function LowerChar(c: char): char {
    if 'A' <= c <= 'Z' then (c as int + 32) as char else c
  }

  function Lower(s: string): string { seq(|s|, i requires 0 <= i < |s| => LowerChar(s[i])) }

  /** The pin is about this host and this type of key. */
  predicate Concerns(p: Pin, o: Offer) { Lower(p.host) == Lower(o.host) && p.keyType == o.keyType }

  predicate Matches(p: Pin, o: Offer) { Concerns(p, o) && Trim(p.key) == o.key }

  predicate Differs(p: Pin, o: Offer) { Concerns(p, o) && Trim(p.key) != o.key }

  ghost predicate SomeMatch(pins: Pins, o: Offer) { exists id :: id in pins && Matches(pins[id], o) }

  ghost predicate SomeDiffer(pins: Pins, o: Offer) { exists id :: id in pins && Differs(pins[id], o) }

  /** What the pins say, all vaults together: one that differs outweighs any that match. */
  ghost predicate Judged(pins: Pins, o: Offer, v: Verdict) {
    match v
    case Changed(p) => exists id :: id in pins && pins[id] == p && Differs(p, o)
    case Known => SomeMatch(pins, o) && !SomeDiffer(pins, o)
    case Unknown => !SomeMatch(pins, o) && !SomeDiffer(pins, o)
  }

  /** The kind of verdict is determined by the pins, not by the order they are listed in. */
  lemma VerdictIsDetermined(pins: Pins, o: Offer, v: Verdict, w: Verdict)
    requires Judged(pins, o, v) && Judged(pins, o, w)
    ensures v.Changed? == w.Changed? && v.Known? == w.Known?
    ensures v.Changed? <==> SomeDiffer(pins, o)
  {
    if v.Changed? { var id :| id in pins && pins[id] == v.pin && Differs(v.pin, o); }
    if w.Changed? { var id :| id in pins && pins[id] == w.pin && Differs(w.pin, o); }
  }

  // ----- changing the table -----

  /** Rows of `vault` about this host and key type. */
  predicate Ours(p: Pin, vault: nat, o: Offer) { p.vault == vault && Concerns(p, o) }

  /** The table without the pins that go, but for those in `left`. */
  function Without(pins: Pins, goes: Pin -> bool, left: set<Id>): Pins {
    map id | id in pins && (id in left || !goes(pins[id])) :: pins[id]
  }

  lemma WithoutStep(pins: Pins, goes: Pin -> bool, left: set<Id>, x: Id)
    requires x in left && x in pins
    ensures Without(pins, goes, left - {x}) ==
              if goes(pins[x]) then Without(pins, goes, left) - {x} else Without(pins, goes, left)
    ensures x in Without(pins, goes, left) && Without(pins, goes, left)[x] == pins[x]
  {
  }

  function Trusted(pins: Pins, vault: nat, next: Id, o: Offer): Pins {
    Without(pins, p => Ours(p, vault, o), {})[next := Pin(vault, o.host, o.keyType, o.key)]
  }

  predicate HeldHere(p: Pin, vault: nat, host: string) { p.vault == vault && Lower(p.host) == Lower(host) }

  function Forgotten(pins: Pins, vault: nat, host: string): Pins {
    Without(pins, p => HeldHere(p, vault, host), {})
  }

  /** Each vault holds at most one pin for a host and key type. */
  ghost predicate OnePinEach(pins: Pins) {
    forall i, j :: i in pins && j in pins && SamePlace(pins[i], pins[j]) ==> i == j
  }

  predicate SamePlace(p: Pin, q: Pin) { p.vault == q.vault && Lower(p.host) == Lower(q.host) && p.keyType == q.keyType }

  ghost predicate IdsBelow(pins: Pins, next: Id) { forall id :: id in pins ==> id < next }

  /** The other vaults hold what they held. */
  ghost predicate OthersKept(pins: Pins, after: Pins, vault: nat) {
    && (forall id :: id in pins && pins[id].vault != vault ==> id in after && after[id] == pins[id])
    && (forall id :: id in after && after[id].vault != vault ==> id in pins && after[id] == pins[id])
  }

  lemma TrustKeepsTable(pins: Pins, vault: nat, next: Id, o: Offer)
    requires OnePinEach(pins) && IdsBelow(pins, next)
    ensures OnePinEach(Trusted(pins, vault, next, o)) && IdsBelow(Trusted(pins, vault, next, o), next + 1)
    ensures OthersKept(pins, Trusted(pins, vault, next, o), vault)
  {
  }

  lemma ForgetKeepsTable(pins: Pins, vault: nat, next: Id, host: string)
    requires OnePinEach(pins) && IdsBelow(pins, next)
    ensures OnePinEach(Forgotten(pins, vault, host)) && IdsBelow(Forgotten(pins, vault, host), next)
    ensures OthersKept(pins, Forgotten(pins, vault, host), vault)
    ensures forall id :: id in Forgotten(pins, vault, host) && Forgotten(pins, vault, host)[id].vault == vault ==>
              Lower(Forgotten(pins, vault, host)[id].host) != Lower(host)
  {
  }

  /** The same name, ASCII letters read without case. */
  predicate SameName(a: string, b: string) {
    |a| == |b| && forall i :: 0 <= i < |a| ==> SameLetter(a[i], b[i])
  }

  predicate SameLetter(a: char, b: char) {
    a == b || ('A' <= a <= 'Z' && b as int == a as int + 32) || ('A' <= b <= 'Z' && a as int == b as int + 32)
  }

  lemma LowerIsSameName(a: string, b: string)
    ensures Lower(a) == Lower(b) <==> SameName(a, b)
  {
    if Lower(a) == Lower(b) {
      forall i | 0 <= i < |a|
        ensures SameLetter(a[i], b[i])
      {
        assert Lower(a)[i] == Lower(b)[i];
      }
    }
  }

  /** Exactly the pins that `goes` says are gone; the others are as they were. */
  ghost predicate OnlyGone(pins: Pins, after: Pins, goes: Pin -> bool) {
    && (forall id :: id in after <==> id in pins && !goes(pins[id]))
    && forall id :: id in after && id in pins ==> after[id] == pins[id]
  }

  lemma TrustTakes(pins: Pins, vault: nat, next: Id, o: Offer)
    requires IdsBelow(pins, next)
    ensures OnlyGone(pins, Trusted(pins, vault, next, o) - {next},
      (p: Pin) => p.vault == vault && p.keyType == o.keyType && SameName(p.host, o.host))
  {
    forall id | id in pins
      ensures Lower(pins[id].host) == Lower(o.host) <==> SameName(pins[id].host, o.host)
    {
      LowerIsSameName(pins[id].host, o.host);
    }
    hide SameName, Lower;
  }

  lemma ForgetTakes(pins: Pins, vault: nat, host: string)
    ensures OnlyGone(pins, Forgotten(pins, vault, host), (p: Pin) => p.vault == vault && SameName(p.host, host))
  {
    forall id | id in pins
      ensures Lower(pins[id].host) == Lower(host) <==> SameName(pins[id].host, host)
    {
      LowerIsSameName(pins[id].host, host);
    }
    hide SameName, Lower;
  }

  /** A pin of another vault still says otherwise. */
  ghost predicate OverruledElsewhere(pins: Pins, vault: nat, o: Offer) {
    exists id :: id in pins && pins[id].vault != vault && Differs(pins[id], o)
  }

  /** A trusted key is known from then on exactly when no other vault pins a
      different one: a pin shared by a team cannot be overridden locally. */
  lemma TrustedIsKnownExactly(pins: Pins, vault: nat, next: Id, o: Offer, v: Verdict)
    requires IdsBelow(pins, next) && Trim(o.key) == o.key
    requires Judged(Trusted(pins, vault, next, o), o, v)
    ensures v == Known <==> !OverruledElsewhere(pins, vault, o)
    ensures v != Unknown
  {
    var after := Trusted(pins, vault, next, o);
    assert Matches(after[next], o);
    if OverruledElsewhere(pins, vault, o) {
      var id :| id in pins && pins[id].vault != vault && Differs(pins[id], o);
      assert id in after && Differs(after[id], o);
    }
    if SomeDiffer(after, o) {
      var id :| id in after && Differs(after[id], o);
      assert id != next && id in pins && pins[id].vault != vault;
    }
  }

  // ----- importing -----

  /** The verdict of a table on an offer is that of its pins. */
  predicate IsKnown(pins: Pins, o: Offer) {
    (exists id :: id in pins && Matches(pins[id], o)) && forall id :: id in pins ==> !Differs(pins[id], o)
  }

  lemma KnownIsJudged(pins: Pins, o: Offer, v: Verdict)
    requires Judged(pins, o, v)
    ensures v == Known <==> IsKnown(pins, o)
  {
    if v.Changed? { var id :| id in pins && pins[id] == v.pin && Differs(v.pin, o); }
  }

  /** The table and how many pins were written, after entries in order. */
  function Imported(pins: Pins, vault: nat, next: Id, offers: seq<Offer>): (Pins, Id, nat) {
    if offers == [] then (pins, next, 0)
    else
      var (before, at, n) := Imported(pins, vault, next, offers[..|offers| - 1]);
      var o := offers[|offers| - 1];
      if IsKnown(before, o) then (before, at, n) else (Trusted(before, vault, at, o), at + 1, n + 1)
  }

  lemma ImportedStep(pins: Pins, vault: nat, next: Id, offers: seq<Offer>, i: nat)
    requires i < |offers|
    ensures
      var (before, at, n) := Imported(pins, vault, next, offers[..i]);
      Imported(pins, vault, next, offers[..i + 1]) ==
        if IsKnown(before, offers[i]) then (before, at, n) else (Trusted(before, vault, at, offers[i]), at + 1, n + 1)
  {
    assert offers[..i + 1][..i] == offers[..i];
    hide IsKnown, Trusted;
  }

  lemma OthersKeptTwice(a: Pins, b: Pins, c: Pins, vault: nat)
    requires OthersKept(a, b, vault) && OthersKept(b, c, vault)
    ensures OthersKept(a, c, vault)
  {
  }

  lemma {:induction false} ImportKeepsTable(pins: Pins, vault: nat, next: Id, offers: seq<Offer>)
    requires OnePinEach(pins) && IdsBelow(pins, next)
    ensures
      var (after, at, _) := Imported(pins, vault, next, offers);
      OnePinEach(after) && IdsBelow(after, at) && OthersKept(pins, after, vault)
  {
    if offers != [] {
      ImportKeepsTable(pins, vault, next, offers[..|offers| - 1]);
      var (before, at, _) := Imported(pins, vault, next, offers[..|offers| - 1]);
      TrustKeepsTable(before, vault, at, offers[|offers| - 1]);
      OthersKeptTwice(pins, before, Trusted(before, vault, at, offers[|offers| - 1]), vault);
    }
  }

  lemma ImportKeepsElsewhere(pins: Pins, vault: nat, next: Id, offers: seq<Offer>, o: Offer)
    requires OnePinEach(pins) && IdsBelow(pins, next)
    ensures OverruledElsewhere(Imported(pins, vault, next, offers).0, vault, o) <==> OverruledElsewhere(pins, vault, o)
  {
    ImportKeepsTable(pins, vault, next, offers);
  }

  /** The last entry imported for a host and key type is what the vault
      answers for: known exactly when no other vault pins something else. */
  lemma LastEntryIsKnownExactly(pins: Pins, vault: nat, next: Id, offers: seq<Offer>, v: Verdict)
    requires OnePinEach(pins) && IdsBelow(pins, next) && offers != []
    requires Trim(offers[|offers| - 1].key) == offers[|offers| - 1].key
    requires Judged(Imported(pins, vault, next, offers).0, offers[|offers| - 1], v)
    ensures v == Known <==> !OverruledElsewhere(pins, vault, offers[|offers| - 1])
  {
    var o := offers[|offers| - 1];
    var (before, at, _) := Imported(pins, vault, next, offers[..|offers| - 1]);
    ImportKeepsTable(pins, vault, next, offers[..|offers| - 1]);
    ImportKeepsElsewhere(pins, vault, next, offers[..|offers| - 1], o);
    if !IsKnown(before, o) { TrustedIsKnownExactly(before, vault, at, o, v); }
  }

  /** The vault holds a pin for the host and key type. */
  ghost predicate HoldsOne(pins: Pins, vault: nat, o: Offer) { exists id :: id in pins && Ours(pins[id], vault, o) }

  /** No entry that is written meets a pin the vault holds at that point. */
  ghost predicate NothingReplaced(pins: Pins, vault: nat, next: Id, offers: seq<Offer>) {
    offers == [] ||
    var before, o := Imported(pins, vault, next, offers[..|offers| - 1]).0, offers[|offers| - 1];
    && NothingReplaced(pins, vault, next, offers[..|offers| - 1])
    && (IsKnown(before, o) || !HoldsOne(before, vault, o))
  }

  lemma TrustCounts(pins: Pins, vault: nat, next: Id, o: Offer)
    requires OnePinEach(pins) && IdsBelow(pins, next)
    ensures |Trusted(pins, vault, next, o)| == if HoldsOne(pins, vault, o) then |pins| else |pins| + 1
  {
    var goes := (p: Pin) => Ours(p, vault, o);
    var rest := Without(pins, goes, {});
    assert next !in rest;
    AddOne(rest, next, Pin(vault, o.host, o.keyType, o.key));
    if HoldsOne(pins, vault, o) {
      var id :| id in pins && Ours(pins[id], vault, o);
      forall x | x in pins && Ours(pins[x], vault, o)
        ensures x == id
      {
        assert SamePlace(pins[x], pins[id]);
      }
      assert rest == pins - {id};
      DropOne(pins, id);
    } else {
      assert rest == pins;
    }
  }

  lemma AddOne(pins: Pins, id: Id, p: Pin)
    requires id !in pins
    ensures |pins[id := p]| == |pins| + 1
  {
    assert pins[id := p].Keys == pins.Keys + {id};
    assert |pins[id := p].Keys| == |pins[id := p]| && |pins.Keys| == |pins|;
  }

  /** The count is of entries written. It is at least the number of pins gained,
      and just that exactly when no entry replaced a pin. */
  lemma {:induction false} CountIsGainExactly(pins: Pins, vault: nat, next: Id, offers: seq<Offer>)
    requires OnePinEach(pins) && IdsBelow(pins, next)
    ensures
      var (after, _, n) := Imported(pins, vault, next, offers);
      n >= |after| - |pins| && (n == |after| - |pins| <==> NothingReplaced(pins, vault, next, offers))
  {
    if offers != [] {
      var init, o := offers[..|offers| - 1], offers[|offers| - 1];
      CountIsGainExactly(pins, vault, next, init);
      ImportKeepsTable(pins, vault, next, init);
      var (before, at, _) := Imported(pins, vault, next, init);
      TrustCounts(before, vault, at, o);
      hide Trusted, IsKnown, HoldsOne, OnePinEach, IdsBelow;
    }
  }

  /** An input on which they differ: two keys for one host count twice and leave one pin. */
  lemma ImportCountsReplacedPins(vault: nat, host: string, keyType: string)
    ensures
      var (after, _, n) := Imported(map[], vault, 0, [Offer(host, keyType, "a"), Offer(host, keyType, "b")]);
      n == 2 && |after| == 1
  {
    var a, b := Offer(host, keyType, "a"), Offer(host, keyType, "b");
    assert [a, b][..1] == [a] && [a][..0] == [];
    TrimLetter('a');
    var one := Trusted(map[], vault, 0, a);
    assert Imported(map[], vault, 0, [a]) == (one, 1, 1);
    assert one == map[0 := Pin(vault, host, keyType, "a")];
    assert Differs(one[0], b);
    assert Trusted(one, vault, 1, b) == map[1 := Pin(vault, host, keyType, "b")];
  }

  lemma TrimLetter(c: char)
    requires !IsSpace(c)
    ensures Trim([c]) == [c]
  {
  }

  class KnownHosts {
    var pins: Pins
    var next: Id
    const vault: nat

    ghost predicate Valid()
      reads this
    {
      OnePinEach(pins) && IdsBelow(pins, next)
    }

    /** A table shared with other vaults, whose pins it only reads. */
    constructor (vault: nat, pins: Pins, next: Id)
      requires OnePinEach(pins) && IdsBelow(pins, next)
      ensures Valid() && this.vault == vault && this.pins == pins && this.next == next
    {
      this.vault, this.pins, this.next := vault, pins, next;
    }

    /** Judge a key against the pins in whatever order they are listed. */
    method Check(order: seq<Id>, o: Offer) returns (v: Verdict)
      requires forall id :: id in pins <==> id in order
      ensures Judged(pins, o, v)
    {
      var known := false;
      for i := 0 to |order|
        invariant known ==> SomeMatch(pins, o)
        invariant forall k :: 0 <= k < i ==> !Differs(pins[order[k]], o) && (Matches(pins[order[k]], o) ==> known)
      {
        var p := pins[order[i]];
        if Concerns(p, o) {
          if Trim(p.key) == o.key {
            known := true;
          } else {
            return Changed(p);
          }
        }
      }
      forall id | id in pins
        ensures !Differs(pins[id], o) && (Matches(pins[id], o) ==> known)
      {
        var k :| 0 <= k < |order| && order[k] == id;
      }
      v := if known then Known else Unknown;
    }

    /** Delete the pins that go, one by one. */
    method DropAll(goes: Pin -> bool) returns (n: nat)
      modifies this`pins
      ensures pins == Without(old(pins), goes, {}) && n == |old(pins)| - |pins|
    {
      ghost var was := pins;
      var left := pins.Keys;
      n := 0;
      assert pins == Without(was, goes, left);
      hide Without;
      while left != {}
        invariant left <= was.Keys && n == |was| - |pins| && pins == Without(was, goes, left)
      {
        var x :| x in left;
        WithoutStep(was, goes, left, x);
        left := left - {x};
        if goes(pins[x]) {
          DropOne(pins, x);
          pins := pins - {x};
          n := n + 1;
        }
      }
    }

    /** This vault's pins for the host and key type go; then the key is pinned. */
    method Trust(o: Offer) returns (id: Id)
      requires Valid()
      modifies this
      ensures Valid() && id == old(next) && next == id + 1
      ensures pins == Trusted(old(pins), vault, old(next), o)
      ensures id in pins && pins[id] == Pin(vault, o.host, o.keyType, o.key)
      ensures OnlyGone(old(pins), pins - {id},
        (p: Pin) => p.vault == vault && p.keyType == o.keyType && SameName(p.host, o.host))
    {
      TrustKeepsTable(pins, vault, next, o);
      TrustTakes(pins, vault, next, o);
      hide Without, OnePinEach, IdsBelow;
      var n := DropAll(p => Ours(p, vault, o));
      id := next;
      pins, next := pins[id := Pin(vault, o.host, o.keyType, o.key)], next + 1;
    }

    method Forget(host: string) returns (n: nat)
      requires Valid()
      modifies this
      ensures Valid() && next == old(next) && pins == Forgotten(old(pins), vault, host)
      ensures n == |old(pins)| - |pins|
      ensures OnlyGone(old(pins), pins, (p: Pin) => p.vault == vault && SameName(p.host, host))
    {
      ForgetKeepsTable(pins, vault, next, host);
      ForgetTakes(pins, vault, host);
      hide Without, OnePinEach, IdsBelow;
      n := DropAll(p => HeldHere(p, vault, host));
    }

    /** The pins of every vault, each once, in some order. */
    method Listed() returns (order: seq<Id>)
      ensures forall id :: id in pins <==> id in order
    {
      order := [];
      var left := pins.Keys;
      while left != {}
        invariant left <= pins.Keys && forall id :: id in order <==> id in pins && id !in left
      {
        var id :| id in left;
        left, order := left - {id}, order + [id];
      }
    }

    /** Entries of a known-hosts file, already split into host, type and key:
        whatever the check does not call known is trusted. */
    method Import(offers: seq<Offer>) returns (n: nat)
      requires Valid()
      modifies this
      ensures Valid() && (pins, next, n) == Imported(old(pins), vault, old(next), offers)
    {
      hide IsKnown, Judged, Trusted, OnePinEach, IdsBelow, OnlyGone;
      ghost var was, at := pins, next;
      n := 0;
      for i := 0 to |offers|
        invariant Valid() && (pins, next, n) == Imported(was, vault, at, offers[..i])
      {
        ImportedStep(was, vault, at, offers, i);
        var order := Listed();
        var verdict := Check(order, offers[i]);
        KnownIsJudged(pins, offers[i], verdict);
        if verdict != Known {
          var id := Trust(offers[i]);
          n := n + 1;
        }
      }
      assert offers[..|offers|] == offers;
    }
  }

  lemma DropOne(pins: Pins, x: Id)
    requires x in pins
    ensures |pins - {x}| == |pins| - 1
  {
    assert (pins - {x}).Keys == pins.Keys - {x};
    assert |pins.Keys| == |pins| && |(pins - {x}).Keys| == |pins - {x}|;
  }
}
