/** Snippet packages: moving, deleting and copying subtrees of a vault's package tree. */
module Packages {
  import opened Wrappers
  import F = Forest

  type Id = nat
  type VaultId = nat

  datatype Package = Package(vault: VaultId, name: string, parent: Option<Id>)

  datatype Snippet = Snippet(vault: VaultId, package: Option<Id>, body: string)

  datatype Binding = Binding(vault: VaultId, host: Id, snippet: Id)

  datatype HostRef = HostRef(vault: VaultId, startup: Option<Id>)

  datatype Error = NotFound | Invalid | OtherVault | SameVault | IntoItself | TooDeep | Cycle

  type PackageMap = map<Id, Package>

  function TreeOf(packages: PackageMap, vault: VaultId): F.Tree {
    map id | id in packages && packages[id].vault == vault :: packages[id].parent
  }

  function WholeTree(packages: PackageMap): F.Tree { map id | id in packages :: packages[id].parent }

  const MAX_HOPS: nat := 64

  /** Everything `id` gave up by going: its sub-packages, and its snippets, sit in its parent. */
  function Lifted(packages: PackageMap, id: Id): PackageMap
    requires id in packages
  {
    map p | p in packages && p != id ::
      if packages[p].vault == packages[id].vault && packages[p].parent == Some(id)
      then packages[p].(parent := packages[id].parent) else packages[p]
  }

  function LiftedSnippets(snippets: map<Id, Snippet>, vault: VaultId, id: Id, parent: Option<Id>): map<Id, Snippet> {
    map s | s in snippets ::
      if snippets[s].vault == vault &&
        snippets[s].package == Some(id) then snippets[s].(package := parent) else snippets[s]
  }

  // ----- subtrees -----

  /** A set that has the root and every child of its members has the whole subtree. */
  lemma {:induction false} ClosedHasSubtree(t: F.Tree, root: Id, s: set<Id>, x: Id, n: nat)
    requires root in s && (forall c :: c in t && t[c].Some? && t[c].value in s ==> c in s)
    requires F.Up(t, x, n) == Some(root)
    ensures x in s
    decreases n
  {
    if n > 0 {
      F.UpShorter(t, x, 1, n);
      assert F.Up(t, x, 0) == Some(x);
      F.UpSplit(t, x, 1, n - 1);
      ClosedHasSubtree(t, root, s, F.Up(t, x, 1).value, n - 1);
    }
  }

  /** A child of the root's subtree that is the root itself puts the root on a cycle. */
  lemma RootOnCycle(t: F.Tree, root: Id, x: Id)
    requires F.Under(t, root, x) && F.ParentOf(t, root) == Some(x)
    ensures F.Reaches(t, root, root)
  {
    var n: nat :| F.Up(t, x, n) == Some(root);
    var m := n + 1;
    assert F.Up(t, root, 0) == Some(root) && F.Up(t, root, 1) == Some(x);
    F.UpSplit(t, root, 1, n);
    assert F.Up(t, root, m) == Some(root);
  }

  /** A root on a cycle has its own parent below it. */
  lemma CycleParent(t: F.Tree, root: Id)
    requires F.Reaches(t, root, root)
    ensures F.ParentOf(t, root).Some? && F.Under(t, root, F.ParentOf(t, root).value)
  {
    var n: nat :| n > 0 && F.Up(t, root, n) == Some(root);
    F.UpShorter(t, root, 1, n);
    assert F.Up(t, root, 0) == Some(root);
    F.UpSplit(t, root, 1, n - 1);
    assert F.Up(t, F.ParentOf(t, root).value, n - 1) == Some(root);
  }

  // ----- a breadth-first copy, seen from its tree -----

  /** How far a copy of the subtree of `root` has come: `done` is copied, `todo`
      waits in the queue, and together they miss no child of what is done. */
  ghost predicate Copying(t: F.Tree, root: Id, done: set<Id>, todo: seq<Id>) {
    && (forall x :: x in done || x in todo ==> x in t && F.Under(t, root, x))
    && (forall i, j :: 0 <= i < j < |todo| ==> todo[i] != todo[j])
    && (forall x :: x in todo ==> x !in done)
    && (root in done || todo == [root])
    && (forall x :: x in done || x in todo ==> x == root || (t[x].Some? && t[x].value in done))
    && (root in done ==> root !in todo)
  }

  /** Every child of what is done is done or waits, and the root is no child of it. */
  ghost predicate ChildrenKnown(t: F.Tree, root: Id, done: set<Id>, todo: seq<Id>) {
    forall c :: c in t && t[c].Some? && t[c].value in done ==> c != root && (c in done || c in todo)
  }

  lemma CopyingIsDone(t: F.Tree, root: Id, done: set<Id>)
    requires Copying(t, root, done, []) && ChildrenKnown(t, root, done, [])
    ensures forall x :: x in done <==> F.Under(t, root, x)
    ensures !F.Reaches(t, root, root)
  {
    forall x | F.Under(t, root, x)
      ensures x in done
    {
      var n: nat :| F.Up(t, x, n) == Some(root);
      ClosedHasSubtree(t, root, done, x, n);
    }
    if F.Reaches(t, root, root) { CycleParent(t, root); }
  }

  /** The next source package of the queue is copied; its children are found
      later, so for a moment they are not yet known. */
  lemma CopyNext(t: F.Tree, root: Id, done: set<Id>, todo: seq<Id>)
    requires Copying(t, root, done, todo) && todo != []
    ensures todo[0] !in done && Copying(t, root, done + {todo[0]}, todo[1..])
  {
    assert todo[0] in todo;
  }

  /** A child of what was just copied joins the queue. */
  lemma ChildJoins(t: F.Tree, root: Id, done: set<Id>, todo: seq<Id>, c: Id)
    requires Copying(t, root, done, todo) && root in done && c in t && t[c].Some? && t[c].value in done
    requires c !in done && c !in todo
    ensures Copying(t, root, done, todo + [c])
  {
    F.ChildIsUnder(t, root, t[c].value, c);
  }

  /** A child that is already copied can only be the root. */
  lemma SeenChildIsRoot(t: F.Tree, root: Id, before: set<Id>, src: Id, c: Id)
    requires src !in before && c in before + {src} && c in t && t[c] == Some(src) && src in t && F.Under(t, root, src)
    requires forall x :: x in before ==> x in t && (x == root || (t[x].Some? && t[x].value in before))
    requires src == root || (t[src].Some? && t[src].value in before)
    ensures c == root && F.Reaches(t, root, root)
  {
    RootOnCycle(t, root, src);
  }

  // ----- what a copy makes -----

  /** The copy of `x` hangs under the copy of its parent, the root's copy at the top level. */
  function NewParent(p: PackageMap, root: Id, m: map<Id, Id>, x: Id): Option<Id>
    requires x in p
  {
    if x == root then None
    else match p[x].parent case Some(y) => if y in m then Some(m[y]) else None case None => None
  }

  /** `m` leads from copied packages to their copies, all new and all different. */
  ghost predicate NewIds(p: PackageMap, q: PackageMap, m: map<Id, Id>) {
    && (forall x :: x in m ==> x in p && m[x] !in p && m[x] in q)
    && (forall x, y :: x in m && y in m && m[x] == m[y] ==> x == y)
    && (forall id :: id in q && id !in p ==> exists x :: x in m && m[x] == id)
  }

  ghost predicate NewRows(p: PackageMap, q: PackageMap, root: Id, vault: VaultId, m: map<Id, Id>) {
    forall x :: x in m && x in p ==> m[x] in q && q[m[x]] == Package(vault, p[x].name, NewParent(p, root, m, x))
  }

  ghost predicate OldKept(p: PackageMap, q: PackageMap) { forall id :: id in p ==> id in q && q[id] == p[id] }

  /** `m` has exactly the subtree of `root`. */
  ghost predicate Covers(t: F.Tree, root: Id, m: map<Id, Id>) { forall x :: x in m <==> F.Under(t, root, x) }

  /** A full copy of the subtree of `root`. */
  ghost predicate TreeCopied(p: PackageMap, q: PackageMap, root: Id, vault: VaultId, m: map<Id, Id>)
    requires root in p
  {
    && Covers(TreeOf(p, p[root].vault), root, m)
    && NewIds(p, q, m) && NewRows(p, q, root, vault, m) && OldKept(p, q)
  }

  /** Inside the copy, one step up is the copy of one step up. */
  lemma CopyStepUp(p: PackageMap, q: PackageMap, root: Id, vault: VaultId, m: map<Id, Id>, x: Id) returns (z: Id)
    requires root in p && TreeCopied(p, q, root, vault, m) && x in m && x != root
    ensures z in m && F.ParentOf(TreeOf(p, p[root].vault), x) == Some(z) &&
        F.ParentOf(TreeOf(q, vault), m[x]) == Some(m[z])
  {
    hide F.Under, NewIds, OldKept;
    z := F.ParentIsUnder(TreeOf(p, p[root].vault), root, x);
    assert z in m;
    assert q[m[x]] == Package(vault, p[x].name, NewParent(p, root, m, x));
  }

  lemma CopiedRootIsTop(p: PackageMap, q: PackageMap, root: Id, vault: VaultId, m: map<Id, Id>)
    requires root in p && TreeCopied(p, q, root, vault, m) && root in m
    ensures F.ParentOf(TreeOf(q, vault), m[root]) == None
  {
  }

  /** From the root there is no way up inside the subtree, nor from its copy. */
  lemma RootUp(p: PackageMap, q: PackageMap, root: Id, vault: VaultId, m: map<Id, Id>, y: Id, n: nat)
    requires root in p && TreeCopied(p, q, root, vault, m) && root in m && y in m && n > 0
    requires !F.Reaches(TreeOf(p, p[root].vault), root, root)
    ensures F.Up(TreeOf(q, vault), m[root], n) != Some(m[y]) && F.Up(TreeOf(p, p[root].vault), root, n) != Some(y)
  {
    var t := TreeOf(p, p[root].vault);
    assert F.Under(t, root, y) by { assert Covers(t, root, m); }
    hide *;
    CopiedRootIsTop(p, q, root, vault, m);
    F.NowhereUp(TreeOf(q, vault), m[root], n);
    if F.Up(t, root, n) == Some(y) { RootCannotClimb(t, root, y, n); }
  }

  lemma StepBoth(t: F.Tree, u: F.Tree, x: Id, x': Id, z: Id, z': Id, y: Id, y': Id, n: nat)
    requires n > 0 && F.ParentOf(t, x) == Some(z) && F.ParentOf(u, x') == Some(z')
    requires F.Up(u, z', n - 1) == Some(y') <==> F.Up(t, z, n - 1) == Some(y)
    ensures F.Up(u, x', n) == Some(y') <==> F.Up(t, x, n) == Some(y)
  {
    F.UpFirst(t, x, n);
    F.UpFirst(u, x', n);
  }

  lemma NoStep(p: PackageMap, q: PackageMap, m: map<Id, Id>, t: F.Tree, u: F.Tree, x: Id, y: Id)
    requires NewIds(p, q, m) && x in m && y in m
    ensures F.Up(u, m[x], 0) == Some(m[y]) <==> F.Up(t, x, 0) == Some(y)
  {
  }

  lemma CopiedToNewIds(p: PackageMap, q: PackageMap, root: Id, vault: VaultId, m: map<Id, Id>)
    requires root in p && TreeCopied(p, q, root, vault, m)
    ensures NewIds(p, q, m)
  {
    hide NewIds, NewRows, OldKept, Covers;
  }

  lemma {:induction false} CopyUp(p: PackageMap, q: PackageMap, root: Id, vault: VaultId, m: map<Id, Id>, x: Id,
      y: Id, n: nat)
    requires root in p && TreeCopied(p, q, root, vault, m) && x in m && y in m
    requires !F.Reaches(TreeOf(p, p[root].vault), root, root)
    ensures F.Up(TreeOf(q, vault), m[x], n) == Some(m[y]) <==> F.Up(TreeOf(p, p[root].vault), x, n) == Some(y)
    decreases n
  {
    hide *;
    var t, u := TreeOf(p, p[root].vault), TreeOf(q, vault);
    if n == 0 {
      CopiedToNewIds(p, q, root, vault, m);
      NoStep(p, q, m, t, u, x, y);
    } else if x == root {
      RootUp(p, q, root, vault, m, y, n);
    } else {
      var z := CopyStepUp(p, q, root, vault, m, x);
      CopyUp(p, q, root, vault, m, z, y, n - 1);
      StepBoth(t, u, x, m[x], z, m[z], y, m[y], n);
    }
  }

  lemma RootCannotClimb(t: F.Tree, root: Id, y: Id, n: nat)
    requires n > 0 && F.Up(t, root, n) == Some(y) && F.Under(t, root, y)
    ensures F.Reaches(t, root, root)
  {
    var k: nat :| F.Up(t, y, k) == Some(root);
    var m := n + k;
    F.UpSplit(t, root, n, k);
    assert F.Up(t, root, m) == Some(root);
  }

  /** The copy is isomorphic to the subtree: one is an ancestor of another
      exactly when its copy is an ancestor of the other's copy. */
  lemma CopyIsIsomorphic(p: PackageMap, q: PackageMap, root: Id, vault: VaultId, m: map<Id, Id>, x: Id, y: Id)
    requires root in p && TreeCopied(p, q, root, vault, m) && x in m && y in m
    requires !F.Reaches(TreeOf(p, p[root].vault), root, root)
    ensures F.Reaches(TreeOf(q, vault), m[x], m[y]) <==> F.Reaches(TreeOf(p, p[root].vault), x, y)
  {
    forall n: nat
      ensures F.Up(TreeOf(q, vault), m[x], n) == Some(m[y]) <==> F.Up(TreeOf(p, p[root].vault), x, n) == Some(y)
    {
      CopyUp(p, q, root, vault, m, x, y, n);
    }
  }

  // ----- the queue -----

  type Queue = seq<(Id, Option<Id>)>

  function Ids(q: Queue): (r: seq<Id>)
    ensures |r| == |q| && forall i :: 0 <= i < |q| ==> r[i] == q[i].0
  {
    seq(|q|, i requires 0 <= i < |q| => q[i].0)
  }

  lemma IdsAppend(a: Queue, b: Queue)
    ensures Ids(a + b) == Ids(a) + Ids(b)
  {
  }

  ghost predicate ParentsGiven(p: PackageMap, root: Id, m: map<Id, Id>, todo: Queue) {
    forall k :: 0 <= k < |todo| && todo[k].0 in p ==> todo[k].1 == NewParent(p, root, m, todo[k].0)
  }

  ghost predicate Bfs(p: PackageMap, q: PackageMap, root: Id, vault: VaultId, m: map<Id, Id>, todo: Queue)
    requires root in p
  {
    var t := TreeOf(p, p[root].vault);
    && Copying(t, root, m.Keys, Ids(todo)) && ChildrenKnown(t, root, m.Keys, Ids(todo))
    && NewIds(p, q, m) && NewRows(p, q, root, vault, m) && OldKept(p, q) && ParentsGiven(p, root, m, todo)
  }

  lemma BfsStarts(p: PackageMap, root: Id, vault: VaultId)
    requires root in p
    ensures Bfs(p, p, root, vault, map[], [(root, None)])
  {
    F.RootIsUnder(TreeOf(p, p[root].vault), root);
    assert Ids([(root, None)]) == [root];
  }

  lemma BfsEnds(p: PackageMap, q: PackageMap, root: Id, vault: VaultId, m: map<Id, Id>)
    requires root in p && Bfs(p, q, root, vault, m, [])
    ensures TreeCopied(p, q, root, vault, m) && !F.Reaches(TreeOf(p, p[root].vault), root, root)
  {
    assert Ids([]) == [];
    CopyingIsDone(TreeOf(p, p[root].vault), root, m.Keys);
  }

  /** `kids` are exactly the children of `src`, none of them copied yet. */
  ghost predicate KidsOf(t: F.Tree, src: Id, done: set<Id>, kids: seq<Id>) {
    && (forall c :: c in kids <==> c in t && t[c] == Some(src))
    && (forall c :: c in kids ==> c !in done)
    && (forall i, j :: 0 <= i < j < |kids| ==> kids[i] != kids[j])
  }

  lemma {:induction false} KidsJoin(t: F.Tree, root: Id, done: set<Id>, todo: seq<Id>, src: Id, kids: seq<Id>, n: nat)
    requires Copying(t, root, done, todo) && root in done && src in done && KidsOf(t, src, done, kids) && n <= |kids|
    requires forall c :: c in kids ==> c !in todo
    ensures Copying(t, root, done, todo + kids[..n])
  {
    if n == 0 {
      assert todo + kids[..0] == todo;
    } else {
      KidsJoin(t, root, done, todo, src, kids, n - 1);
      assert todo + kids[..n] == (todo + kids[..n - 1]) + [kids[n - 1]];
      assert kids[n - 1] in kids;
      ChildJoins(t, root, done, todo + kids[..n - 1], kids[n - 1]);
    }
  }

  /** One package copied, its children queued. */
  lemma TreeStep(t: F.Tree, root: Id, done: set<Id>, todo: seq<Id>, kids: seq<Id>)
    requires Copying(t, root, done, todo) && ChildrenKnown(t, root, done, todo) && todo != []
    requires KidsOf(t, todo[0], done + {todo[0]}, kids)
    ensures
      var now := done + {todo[0]};
      Copying(t, root, now, todo[1..] + kids) && ChildrenKnown(t, root, now, todo[1..] + kids)
  {
    var src, now := todo[0], done + {todo[0]};
    CopyNext(t, root, done, todo);
    assert src in todo;
    assert forall c :: c in todo[1..] ==> c in todo;
    KidsJoin(t, root, now, todo[1..], src, kids, |kids|);
    assert kids[..|kids|] == kids;
    forall c | c in t && t[c].Some? && t[c].value in now
      ensures c != root && (c in now || c in todo[1..] + kids)
    {
      if t[c].value == src {
        assert c in kids;
      } else {
        assert c in done || c in todo;
      }
    }
  }
}
