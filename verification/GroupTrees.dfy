/** Whole subtrees of groups: what a recursive delete takes out of a vault, and
    what stays the same while it is at work. */
module GroupTrees {
  import opened Wrappers
  import opened Schema
  import opened VaultGraph
  import opened HostForms
  import F = Forest

  /** The groups of `id`'s subtree. */
  ghost function Subtree(v: Vault, id: Id): set<Id> { set x | x in v && v[x].GroupP? && F.Under(GroupTree(v), id, x) }

  /** Nothing is new and nothing changed. */
  ghost predicate Shrunk(v: Vault, w: Vault) { forall x :: x in w ==> x in v && w[x] == v[x] }

  /** From `v` to `w` exactly the groups in `gone`, and the hosts in them, went. */
  ghost predicate GroupsGone(v: Vault, w: Vault, gone: iset<Id>) {
    && Shrunk(v, w)
    && (forall x :: x in v && v[x].GroupP? ==> (x in w <==> x !in gone))
    && (forall x :: x in v && v[x].HostP? ==>
      (x in w <==> !(v[x].host.groupId.Some? && v[x].host.groupId.value in gone)))
  }

  /** Everything at or below `id`. */
  ghost function Below(v: Vault, id: Id): iset<Id> { iset x: Id | F.Under(GroupTree(v), id, x) }

  /** Groups without Telnet defaults: the only ones the client's editors make. */
  ghost predicate GroupsPlain(v: Vault) { forall x :: x in v && v[x].GroupP? ==> v[x].group.telnetConfigId.None? }

  lemma {:induction false} ShrunkUp(v: Vault, w: Vault, x: Id, n: nat)
    requires Shrunk(v, w) && F.Up(GroupTree(w), x, n).Some?
    ensures F.Up(GroupTree(v), x, n) == F.Up(GroupTree(w), x, n)
  {
    if n > 0 { ShrunkUp(v, w, x, n - 1); }
  }

  lemma ShrunkReaches(v: Vault, w: Vault, x: Id, y: Id)
    requires Shrunk(v, w) && F.Reaches(GroupTree(w), x, y)
    ensures F.Reaches(GroupTree(v), x, y)
  {
    var n: nat :| n > 0 && F.Up(GroupTree(w), x, n) == Some(y);
    ShrunkUp(v, w, x, n);
    assert F.Up(GroupTree(v), x, n) == Some(y);
  }

  lemma ShrunkStaysForest(v: Vault, w: Vault)
    requires Shrunk(v, w) && F.Acyclic(GroupTree(v))
    ensures F.Acyclic(GroupTree(w))
  {
    forall x: Id
      ensures !F.Reaches(GroupTree(w), x, x)
    {
      if F.Reaches(GroupTree(w), x, x) { ShrunkReaches(v, w, x, x); }
    }
  }

  /** A subtree that is still whole reads the same. */
  lemma {:induction false} WholeSubtreeUp(v: Vault, w: Vault, c: Id, x: Id, n: nat)
    requires Shrunk(v, w) && F.Up(GroupTree(v), x, n) == Some(c)
    requires forall y :: y in v && v[y].GroupP? && F.Under(GroupTree(v), c, y) ==> y in w
    ensures F.Up(GroupTree(w), x, n) == Some(c)
    decreases n
  {
    if n > 0 {
      F.UpFirst(GroupTree(v), x, n);
      var z := F.ParentOf(GroupTree(v), x).value;
      assert F.Under(GroupTree(v), c, x);
      WholeSubtreeUp(v, w, c, z, n - 1);
      F.UpFirst(GroupTree(w), x, n);
    }
  }

  lemma SubtreeReadsAlike(v: Vault, w: Vault, c: Id)
    requires Shrunk(v, w) && forall y :: y in v && v[y].GroupP? && F.Under(GroupTree(v), c, y) ==> y in w
    ensures Below(w, c) == Below(v, c)
  {
    forall x: Id
      ensures F.Under(GroupTree(w), c, x) <==> F.Under(GroupTree(v), c, x)
    {
      if F.Under(GroupTree(v), c, x) {
        var n: nat :| F.Up(GroupTree(v), x, n) == Some(c);
        WholeSubtreeUp(v, w, c, x, n);
      }
      if F.Under(GroupTree(w), c, x) {
        var n: nat :| F.Up(GroupTree(w), x, n) == Some(c);
        ShrunkUp(v, w, x, n);
      }
    }
  }

  /** Two children of one group share nothing. */
  lemma ChildrenApart(t: F.Tree, id: Id, c: Id, d: Id, x: Id)
    requires F.Acyclic(t) && F.ParentOf(t, c) == Some(id) && F.ParentOf(t, d) == Some(id) && c != d
    ensures !(F.Under(t, c, x) && F.Under(t, d, x))
  {
    if F.Under(t, c, x) && F.Under(t, d, x) {
      var m: nat :| F.Up(t, x, m) == Some(c);
      var n: nat :| F.Up(t, x, n) == Some(d);
      if m < n { SiblingsOnOnePath(t, id, x, c, m, d, n); } else if n < m { SiblingsOnOnePath(t, id, x, d, n, c, m); }
    }
  }

  lemma SiblingsOnOnePath(t: F.Tree, id: Id, x: Id, c: Id, m: nat, d: Id, n: nat)
    requires F.ParentOf(t, c) == Some(id) && F.ParentOf(t, d) == Some(id)
    requires m < n && F.Up(t, x, m) == Some(c) && F.Up(t, x, n) == Some(d)
    ensures F.Reaches(t, id, id)
  {
    F.UpSplit(t, x, m, n - m);
    F.UpFirst(t, c, n - m);
    var k := n - m;
    assert F.Up(t, id, k - 1) == Some(d);
    F.UpSplit(t, id, k - 1, 1);
    assert F.Up(t, d, 0) == Some(d) && F.Up(t, d, 1) == Some(id);
    assert F.Up(t, id, k) == Some(id);
  }

  lemma ClimbsBack(t: F.Tree, id: Id, c: Id)
    requires F.Under(t, c, id) && F.ParentOf(t, c) == Some(id)
    ensures F.Reaches(t, id, id)
  {
    var n: nat :| F.Up(t, id, n) == Some(c);
    F.UpSplit(t, id, n, 1);
    var m := n + 1;
    assert F.Up(t, c, 0) == Some(c) && F.Up(t, c, 1) == Some(id);
    assert F.Up(t, id, m) == Some(id);
  }

  lemma ChildIsNotAbove(t: F.Tree, id: Id, c: Id)
    requires F.Acyclic(t) && F.ParentOf(t, c) == Some(id)
    ensures !F.Under(t, c, id)
  {
    if F.Under(t, c, id) { ClimbsBack(t, id, c); }
  }

  /** Everything below a group is below one of its children. */
  lemma BelowIsBelowChild(t: F.Tree, id: Id, x: Id) returns (c: Id)
    requires F.Under(t, id, x) && x != id
    ensures F.ParentOf(t, c) == Some(id) && F.Under(t, c, x)
  {
    var n: nat :| F.Up(t, x, n) == Some(id);
    assert n > 0;
    F.UpShorter(t, x, n - 1, n);
    c := F.Up(t, x, n - 1).value;
  }

  lemma UnderTransitive(t: F.Tree, a: Id, b: Id, x: Id)
    requires F.Under(t, a, b) && F.Under(t, b, x)
    ensures F.Under(t, a, x)
  {
    var m: nat :| F.Up(t, x, m) == Some(b);
    var n: nat :| F.Up(t, b, n) == Some(a);
    F.UpSplit(t, x, m, n);
    var k := m + n;
    assert F.Up(t, x, k) == Some(a);
  }

  /** What the first children of a group take along. */
  ghost function BelowAny(v: Vault, kids: seq<Id>): iset<Id> { iset x: Id | BelowSome(v, kids, x) }

  ghost predicate BelowSome(v: Vault, kids: seq<Id>, x: Id) { exists k: nat :: BelowKid(v, kids, k, x) }

  ghost predicate BelowKid(v: Vault, kids: seq<Id>, k: nat, x: Id) { k < |kids| && F.Under(GroupTree(v), kids[k], x) }

  ghost predicate AreKids(v: Vault, id: Id, kids: seq<Id>) {
    && (forall c :: c in kids <==> c in v && v[c].GroupP? && v[c].group.parentId == Some(id))
    && (forall i, j :: 0 <= i < j < |kids| ==> kids[i] != kids[j])
  }

  /** The next child's subtree is still whole when its turn comes. */
  lemma NextKidIsWhole(v: Vault, w: Vault, id: Id, kids: seq<Id>, i: nat)
    requires F.Acyclic(GroupTree(v)) && AreKids(v, id, kids) && i < |kids| && GroupsGone(v, w, BelowAny(v, kids[..i]))
    ensures Below(w, kids[i]) == Below(v, kids[i]) && kids[i] in w
  {
    var t, c := GroupTree(v), kids[i];
    assert c in kids && F.ParentOf(t, c) == Some(id);
    forall y | y in v && v[y].GroupP? && F.Under(t, c, y)
      ensures y in w
    {
      forall k: nat | k < i
        ensures !BelowKid(v, kids[..i], k, y)
      {
        assert kids[k] in kids;
        ChildrenApart(t, id, kids[k], c, y);
      }
    }
    F.RootIsUnder(t, c);
    SubtreeReadsAlike(v, w, c);
  }

  lemma GoneTwice(v: Vault, w: Vault, u: Vault, a: iset<Id>, b: iset<Id>)
    requires GroupsGone(v, w, a) && GroupsGone(w, u, b)
    ensures GroupsGone(v, u, a + b)
  {
  }

  lemma OneMoreKid(v: Vault, kids: seq<Id>, i: nat)
    requires i < |kids|
    ensures BelowAny(v, kids[..i + 1]) == BelowAny(v, kids[..i]) + Below(v, kids[i])
  {
    var few, more := kids[..i], kids[..i + 1];
    forall x: Id
      ensures x in BelowAny(v, more) <==> x in BelowAny(v, few) || F.Under(GroupTree(v), kids[i], x)
    {
      if k: nat :| BelowKid(v, more, k, x) { assert k < i ==> BelowKid(v, few, k, x); }
      if k: nat :| BelowKid(v, few, k, x) { assert BelowKid(v, more, k, x); }
      if F.Under(GroupTree(v), kids[i], x) { assert BelowKid(v, more, i, x); }
    }
  }

  /** The subtree is the group and what is below its children. */
  lemma BelowIsAllKids(v: Vault, id: Id, kids: seq<Id>)
    requires id in v && v[id].GroupP? && AreKids(v, id, kids)
    ensures Below(v, id) == BelowAny(v, kids) + iset{id}
  {
    var t := GroupTree(v);
    forall x: Id
      ensures F.Under(t, id, x) <==> x == id || x in BelowAny(v, kids)
    {
      F.RootIsUnder(t, id);
      if F.Under(t, id, x) && x != id {
        var c := BelowIsBelowChild(t, id, x);
        var k :| 0 <= k < |kids| && kids[k] == c;
        assert BelowKid(v, kids, k, x);
      }
      if k: nat :| BelowKid(v, kids, k, x) {
        assert kids[k] in kids;
        F.ChildIsUnder(t, id, id, kids[k]);
        UnderTransitive(t, id, kids[k], x);
      }
    }
  }

  lemma SubtreeShrinks(v: Vault, w: Vault, id: Id, c: Id)
    requires F.Acyclic(GroupTree(v)) && Shrunk(v, w) && id in v && v[id].GroupP? &&
        F.ParentOf(GroupTree(v), c) == Some(id)
    ensures Subtree(w, c) < Subtree(v, id)
  {
    var t := GroupTree(v);
    F.RootIsUnder(t, id);
    F.ChildIsUnder(t, id, id, c);
    ChildIsNotAbove(t, id, c);
    forall x | x in Subtree(w, c)
      ensures x in Subtree(v, id) && x != id
    {
      var n: nat :| F.Up(GroupTree(w), x, n) == Some(c);
      ShrunkUp(v, w, x, n);
      assert F.Under(t, c, x);
      UnderTransitive(t, id, c, x);
    }
    assert id in Subtree(v, id) && id !in Subtree(w, c);
  }

  lemma NothingGone(v: Vault, kids: seq<Id>)
    ensures GroupsGone(v, v, BelowAny(v, kids[..0]))
  {
  }

  /** What the recursive call for the next child needs. */
  lemma KidTurn(v: Vault, w: Vault, id: Id, kids: seq<Id>, i: nat)
    requires F.Acyclic(GroupTree(v)) && id in v && v[id].GroupP? && AreKids(v, id, kids) && i < |kids|
    requires GroupsGone(v, w, BelowAny(v, kids[..i])) && kids[i] in w
    ensures F.Acyclic(GroupTree(w)) && w[kids[i]].GroupP? && Subtree(w, kids[i]) < Subtree(v, id)
  {
    assert kids[i] in kids;
    ShrunkStaysForest(v, w);
    SubtreeShrinks(v, w, id, kids[i]);
  }

  lemma KidIsGone(v: Vault, w: Vault, kids: seq<Id>, c: Id)
    requires GroupsGone(v, w, BelowAny(v, kids)) && c in kids && c in v && v[c].GroupP?
    ensures c !in w
  {
    var k :| 0 <= k < |kids| && kids[k] == c;
    F.RootIsUnder(GroupTree(v), c);
    assert BelowKid(v, kids, k, c);
  }

  /** After the children and the hosts are gone the group is alone. */
  lemma OnlyTheGroupLeft(v: Vault, w: Vault, u: Vault, id: Id, kids: seq<Id>)
    requires F.Acyclic(GroupTree(v)) && id in v && v[id].GroupP? && AreKids(v, id, kids) &&
        GroupsGone(v, w, BelowAny(v, kids))
    requires Shrunk(w, u) && (forall x :: x in w && w[x].GroupP? ==> x in u)
    requires forall x :: x in w && w[x].HostP? ==> (x in u <==> w[x].host.groupId != Some(id))
    ensures id in u && u[id] == v[id] && GroupRef(u[id]) != Some(id)
    ensures forall x :: x in u && x != id ==> GroupRef(u[x]) != Some(id)
  {
    var t := GroupTree(v);
    F.NotOwnParent(t, id);
    forall k: nat | k < |kids|
      ensures !BelowKid(v, kids, k, id)
    {
      assert kids[k] in kids;
      ChildIsNotAbove(t, id, kids[k]);
    }
    forall c | c in kids
      ensures c !in w
    {
      KidIsGone(v, w, kids, c);
    }
  }

  /** The empty group goes last. */
  lemma LastStep(v: Vault, w: Vault, u: Vault, id: Id, kids: seq<Id>)
    requires id in v && v[id].GroupP? && AreKids(v, id, kids) && GroupsGone(v, w, BelowAny(v, kids))
    requires Shrunk(w, u) && (forall x :: x in w && w[x].GroupP? ==> x in u)
    requires forall x :: x in w && w[x].HostP? ==> (x in u <==> w[x].host.groupId != Some(id))
    requires id in u && u[id] == v[id] && GroupRef(u[id]) != Some(id) && forall x :: x in u && x != id ==>
        GroupRef(u[x]) != Some(id)
    ensures GroupsGone(v, HostForms.DeleteGroup(u, id), Below(v, id))
  {
    DeleteEmptyGroup(u, id);
    BelowIsAllKids(v, id, kids);
    hide HostForms.DeleteGroup, BelowAny, Below;
    LastGone(v, w, u, HostForms.DeleteGroup(u, id), id, BelowAny(v, kids));
  }

  lemma LastGone(v: Vault, w: Vault, u: Vault, last: Vault, id: Id, gone: iset<Id>)
    requires GroupsGone(v, w, gone) && Shrunk(w, u) && Shrunk(u, last)
    requires forall x :: x in w && w[x].GroupP? ==> x in u
    requires forall x :: x in w && w[x].HostP? ==> (x in u <==> w[x].host.groupId != Some(id))
    requires forall x :: x in u && (u[x].GroupP? || u[x].HostP?) ==> (x in last <==> x != id)
    requires id in u && u[id].GroupP?
    ensures GroupsGone(v, last, gone + iset{id})
  {
  }

  /** A host goes alone: no group and no other host. */
  lemma DeleteHostTouches(v: Vault, id: Id, bound: Payload -> Option<Id>)
    ensures Shrunk(v, DeleteHost(v, id, bound))
    ensures forall x :: x in v && v[x].GroupP? ==> x in DeleteHost(v, id, bound)
    ensures forall x :: x in v && v[x].HostP? ==> (x in DeleteHost(v, id, bound) <==> x != id)
  {
  }

  /** A group with nobody in it goes alone. */
  lemma DeleteEmptyGroup(v: Vault, id: Id)
    requires id in v && v[id].GroupP? && forall x :: x in v && x != id ==> GroupRef(v[x]) != Some(id)
    requires GroupRef(v[id]) != Some(id)
    ensures Shrunk(v, HostForms.DeleteGroup(v, id))
    ensures forall x :: x in v && (v[x].GroupP? || v[x].HostP?) ==> (x in HostForms.DeleteGroup(v, id) <==> x != id)
  {
    assert forall x :: x in v ==> MembersMoved(v, id)[x] == v[x];
  }

  lemma ShrunkTwice(v: Vault, w: Vault, u: Vault)
    requires Shrunk(v, w) && Shrunk(w, u)
    ensures Shrunk(v, u)
  {
  }
}
