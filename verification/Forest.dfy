/** Parent maps: the tree of groups or packages of a vault, cyclic ones
    included, and the walks that guard re-parenting. */
module Forest {
  import opened Wrappers

  type Node = nat

  /** Each node with its parent; a parent need not exist. */
  type Tree = map<Node, Option<Node>>

  function ParentOf(t: Tree, x: Node): Option<Node> { if x in t then t[x] else None }

  /** The `n`th ancestor of `x`; `x` itself for 0. */
  function Up(t: Tree, x: Node, n: nat): Option<Node> {
    if n == 0 then Some(x)
    else match Up(t, x, n - 1) case Some(y) => ParentOf(t, y) case None => None
  }

  /** `y` is a proper ancestor of `x`. */
  ghost predicate Reaches(t: Tree, x: Node, y: Node) { exists n: nat :: n > 0 && Up(t, x, n) == Some(y) }

  ghost predicate Acyclic(t: Tree) { forall x: Node :: !Reaches(t, x, x) }

  ghost predicate Closed(t: Tree) { forall x :: x in t && t[x].Some? ==> t[x].value in t }

  lemma {:induction false} UpSplit(t: Tree, x: Node, m: nat, n: nat)
    requires Up(t, x, m).Some?
    ensures Up(t, x, m + n) == Up(t, Up(t, x, m).value, n)
  {
    if n > 0 { UpSplit(t, x, m, n - 1); }
  }

  /** Climbing `n` steps is one step and then `n - 1`. */
  lemma UpFirst(t: Tree, x: Node, n: nat)
    requires n > 0
    ensures Up(t, x, n) == match ParentOf(t, x) case Some(z) => Up(t, z, n - 1) case None => None
  {
    assert Up(t, x, 0) == Some(x) && Up(t, x, 1) == ParentOf(t, x);
    if Up(t, x, 1).Some? {
      UpSplit(t, x, 1, n - 1);
    } else {
      NowhereUp(t, x, n);
    }
  }

  lemma {:induction false} UpShorter(t: Tree, x: Node, m: nat, n: nat)
    requires m <= n && Up(t, x, n).Some?
    ensures Up(t, x, m).Some?
  {
    if m < n { UpShorter(t, x, m, n - 1); }
  }

  lemma ReachesTransitive(t: Tree, x: Node, y: Node, z: Node)
    requires Reaches(t, x, y) && Reaches(t, y, z)
    ensures Reaches(t, x, z)
  {
    var m: nat :| m > 0 && Up(t, x, m) == Some(y);
    var n: nat :| n > 0 && Up(t, y, n) == Some(z);
    UpSplit(t, x, m, n);
    assert Up(t, x, m + n) == Some(z);
  }

  // ----- re-parenting -----

  function Reparent(t: Tree, x: Node, parent: Option<Node>): Tree { t[x := parent] }

  /** Up to `x`, the walk does not notice that `x` was moved. */
  lemma {:induction false} UpBelow(t: Tree, x: Node, parent: Option<Node>, a: Node, n: nat)
    requires forall m :: 0 <= m < n ==> Up(t, a, m) != Some(x)
    ensures Up(Reparent(t, x, parent), a, n) == Up(t, a, n)
  {
    if n > 0 {
      UpBelow(t, x, parent, a, n - 1);
      assert Up(t, a, n - 1) != Some(x);
    }
  }

  /** The first time, if ever, that the walk up from `a` meets `x` within `n` steps. */
  lemma {:induction false} FirstMeeting(t: Tree, a: Node, x: Node, n: nat) returns (k: Option<nat>)
    ensures k.None? ==> forall m :: 0 <= m < n ==> Up(t, a, m) != Some(x)
    ensures k.Some? ==> k.value < n && Up(t, a, k.value) == Some(x) && forall m :: 0 <= m < k.value ==>
        Up(t, a, m) != Some(x)
  {
    if n == 0 { return None; }
    k := FirstMeeting(t, a, x, n - 1);
    if k.None? && Up(t, a, n - 1) == Some(x) { k := Some(n - 1); }
  }

  /** A new ancestor in the moved tree comes through `x` and its new parent. */
  lemma {:induction false} ReachesAfterMove(t: Tree, x: Node, parent: Option<Node>, a: Node, n: nat, y: Node)
    requires Acyclic(t) && (parent.Some? ==> parent.value != x && !Reaches(t, parent.value, x))
    requires n > 0 && Up(Reparent(t, x, parent), a, n) == Some(y)
    ensures Reaches(t, a, y) || ((a == x || Reaches(t, a, x)) && parent.Some? &&
        (parent.value == y || Reaches(t, parent.value, y)))
    decreases n
  {
    var w := Reparent(t, x, parent);
    var k := FirstMeeting(t, a, x, n);
    if k.None? {
      UpBelow(t, x, parent, a, n);
    } else {
      UpBelow(t, x, parent, a, k.value);
      assert k.value > 0 ==> Reaches(t, a, x);
      UpSplit(w, a, k.value, n - k.value);
      UpSplit(w, x, 0, n - k.value);
      UpShorter(w, x, 1, n - k.value);
      assert Up(w, x, 1) == parent by { assert Up(w, x, 0) == Some(x); }
      if n - k.value > 1 {
        UpSplit(w, x, 1, n - k.value - 1);
        ReachesAfterMove(t, x, parent, parent.value, n - k.value - 1, y);
      }
    }
  }

  /** Moving a node keeps the forest acyclic exactly when its new parent is
      neither the node itself nor below it. */
  lemma ReparentIsAcyclicExactly(t: Tree, x: Node, parent: Option<Node>)
    requires Acyclic(t)
    ensures Acyclic(Reparent(t, x, parent)) <==> (parent.Some? ==> parent.value != x && !Reaches(t, parent.value, x))
  {
    var w := Reparent(t, x, parent);
    if parent.Some? && (parent.value == x || Reaches(t, parent.value, x)) {
      var n: nat :| Up(t, parent.value, n) == Some(x);
      var k := FirstMeeting(t, parent.value, x, n + 1);
      UpBelow(t, x, parent, parent.value, k.value);
      assert Up(w, x, 0) == Some(x) && Up(w, x, 1) == parent;
      UpSplit(w, x, 1, k.value);
      assert Up(w, x, 1 + k.value) == Some(x);
      assert Reaches(w, x, x);
    } else {
      forall a: Node
        ensures !Reaches(w, a, a)
      {
        if Reaches(w, a, a) {
          var n: nat :| n > 0 && Up(w, a, n) == Some(a);
          ReachesAfterMove(t, x, parent, a, n, a);
          if a != x && parent.value != a { ReachesTransitive(t, parent.value, a, x); }
        }
      }
    }
  }

  // ----- the walks that guard it -----

  /** Ancestors nearest first, at most `limit`, stopping when one repeats. */
  function Walk(t: Tree, id: Node, out: seq<Node>, limit: nat): (r: seq<Node>)
    decreases limit - |out|
  {
    var p := ParentOf(t, id);
    if p.Some? && p.value !in out && |out| < limit then Walk(t, p.value, out + [p.value], limit) else out
  }

  /** `out` holds exactly the nearest ancestors of `start`, in order. */
  ghost predicate Nearest(t: Tree, start: Node, out: seq<Node>) {
    forall i :: 0 <= i < |out| ==> Up(t, start, i + 1) == Some(out[i])
  }

  lemma {:induction false} WalkIsNearest(t: Tree, start: Node, id: Node, out: seq<Node>, limit: nat)
    requires Nearest(t, start, out) && Up(t, start, |out|) == Some(id)
    ensures Nearest(t, start, Walk(t, id, out, limit))
    decreases limit - |out|
  {
    var p := ParentOf(t, id);
    if p.Some? && p.value !in out && |out| < limit {
      WalkIsNearest(t, start, p.value, out + [p.value], limit);
    }
  }

  /** On a forest the walk ends only at the root or at its limit. */
  lemma {:induction false} WalkIsComplete(t: Tree, start: Node, id: Node, out: seq<Node>, limit: nat, n: nat)
    requires Acyclic(t) && Nearest(t, start, out) && Up(t, start, |out|) == Some(id) && |out| <= limit
    requires 0 < n <= limit && Up(t, start, n).Some?
    ensures Up(t, start, n).value in Walk(t, id, out, limit)
    decreases limit - |out|
  {
    var p := ParentOf(t, id);
    if n <= |out| {
      WalkExtends(t, id, out, limit);
      assert Walk(t, id, out, limit)[n - 1] == out[n - 1];
    } else {
      UpShorter(t, start, |out| + 1, n);
      if p.value in out {
        var i :| 0 <= i < |out| && out[i] == p.value;
        UpSplit(t, start, i + 1, |out| - i);
        assert Reaches(t, p.value, p.value);
      }
      WalkIsComplete(t, start, p.value, out + [p.value], limit, n);
    }
  }

  lemma {:induction false} WalkExtends(t: Tree, id: Node, out: seq<Node>, limit: nat)
    ensures out <= Walk(t, id, out, limit)
    decreases limit - |out|
  {
    var p := ParentOf(t, id);
    if p.Some? && p.value !in out && |out| < limit { WalkExtends(t, p.value, out + [p.value], limit); }
  }

  /** What the guard accepts: the parent is not the node and the walk up from it does not meet the node. */
  predicate GuardAccepts(t: Tree, x: Node, parent: Node, limit: nat) { parent != x && x !in Walk(t, parent, [], limit) }

  /** `x` is an ancestor of `parent` that the walk is too short to find. */
  ghost predicate BeyondLimit(t: Tree, x: Node, parent: Node, limit: nat) {
    exists n: nat :: n > limit && Up(t, parent, n) == Some(x)
  }

  /** An accepted move keeps the forest acyclic exactly when the node is no
      ancestor of its new parent beyond the walk's limit. */
  lemma GuardedMoveExactly(t: Tree, x: Node, parent: Node, limit: nat)
    requires Acyclic(t) && GuardAccepts(t, x, parent, limit)
    ensures Acyclic(Reparent(t, x, Some(parent))) <==> !BeyondLimit(t, x, parent, limit)
  {
    ReparentIsAcyclicExactly(t, x, Some(parent));
    if Reaches(t, parent, x) {
      var n: nat :| n > 0 && Up(t, parent, n) == Some(x);
      if n <= limit { WalkIsComplete(t, parent, parent, [], limit, n); }
      assert n > limit;
    }
  }

  /** So it does whenever the new parent has at most `limit` ancestors. */
  lemma ShallowMoveIsAcyclic(t: Tree, x: Node, parent: Node, limit: nat)
    requires Acyclic(t) && GuardAccepts(t, x, parent, limit) && Up(t, parent, limit + 1).None?
    ensures Acyclic(Reparent(t, x, Some(parent)))
  {
    GuardedMoveExactly(t, x, parent, limit);
    if n: nat :| n > limit && Up(t, parent, n) == Some(x) { UpShorter(t, parent, limit + 1, n); }
  }

  /** Nothing that would be safe is refused. */
  lemma RefusedMoveIsCyclic(t: Tree, x: Node, parent: Node, limit: nat)
    requires Acyclic(t) && !GuardAccepts(t, x, parent, limit)
    ensures !Acyclic(Reparent(t, x, Some(parent)))
  {
    if parent != x {
      WalkIsNearest(t, parent, parent, [], limit);
      var i :| 0 <= i < |Walk(t, parent, [], limit)| && Walk(t, parent, [], limit)[i] == x;
      assert Up(t, parent, i + 1) == Some(x);
    }
    ReparentIsAcyclicExactly(t, x, Some(parent));
  }

  // ----- beyond the limit -----

  /** `0 <- 1 <- 2 ...`: node `i` sits in `i - 1`. */
  function Chain(size: nat): (t: Tree)
    ensures forall i: Node :: i in t <==> i < size
    ensures forall i: Node :: i in t ==> t[i] == if i > 0 then Some(i - 1) else None
  {
    if size == 0 then map[]
    else Chain(size - 1)[size - 1 := if size > 1 then Some(size - 2) else None]
  }

  lemma {:induction false} ChainUp(size: nat, x: Node, n: nat)
    requires x < size
    ensures Up(Chain(size), x, n) == if n <= x then Some(x - n) else None
  {
    if n > 0 { ChainUp(size, x, n - 1); }
  }

  lemma ChainIsAcyclic(size: nat)
    ensures Acyclic(Chain(size))
  {
    forall x: Node
      ensures !Reaches(Chain(size), x, x)
    {
      if x < size {
        forall n: nat | n > 0
          ensures Up(Chain(size), x, n) != Some(x)
        {
          ChainUp(size, x, n);
        }
      } else {
        forall n: nat | n > 0
          ensures Up(Chain(size), x, n) == None
        {
          NowhereUp(Chain(size), x, n);
        }
      }
    }
  }

  lemma {:induction false} NowhereUp(t: Tree, x: Node, n: nat)
    requires n > 0 && ParentOf(t, x).None?
    ensures Up(t, x, n) == None
  {
    if n > 1 { NowhereUp(t, x, n - 1); } else { assert Up(t, x, 0) == Some(x); }
  }

  /** A chain one longer than the limit: its root may be moved below its end, and that closes a cycle. */
  lemma DeepMoveClosesACycle(limit: nat)
    ensures Acyclic(Chain(limit + 2)) && GuardAccepts(Chain(limit + 2), 0, limit + 1, limit)
    ensures !Acyclic(Reparent(Chain(limit + 2), 0, Some(limit + 1)))
  {
    var t := Chain(limit + 2);
    ChainIsAcyclic(limit + 2);
    WalkIsNearest(t, limit + 1, limit + 1, [], limit);
    WalkIsShort(t, limit + 1, [], limit);
    var walk := Walk(t, limit + 1, [], limit);
    forall i | 0 <= i < |walk|
      ensures walk[i] != 0
    {
      ChainUp(limit + 2, limit + 1, i + 1);
    }
    ChainUp(limit + 2, limit + 1, limit + 1);
    assert Reaches(t, limit + 1, 0);
    ReparentIsAcyclicExactly(t, 0, Some(limit + 1));
  }

  lemma {:induction false} WalkIsShort(t: Tree, id: Node, out: seq<Node>, limit: nat)
    requires |out| <= limit
    ensures |Walk(t, id, out, limit)| <= limit
    decreases limit - |out|
  {
    var p := ParentOf(t, id);
    if p.Some? && p.value !in out && |out| < limit { WalkIsShort(t, p.value, out + [p.value], limit); }
  }

  // ----- taking a node out -----

  /** The node goes; whatever sat in it moves to its parent. */
  function Lift(t: Tree, x: Node): Tree {
    map y | y in t && y != x :: if t[y] == Some(x) then ParentOf(t, x) else t[y]
  }

  /** One step up in the lifted tree is one step, or two across `x`. */
  lemma LiftStep(t: Tree, x: Node, y: Node)
    requires y != x
    ensures ParentOf(Lift(t, x), y) == if ParentOf(t, y) == Some(x) then ParentOf(t, x) else ParentOf(t, y)
  {
  }

  lemma {:induction false} LiftReachesOnlyBefore(t: Tree, x: Node, a: Node, n: nat)
    requires a != x && ParentOf(t, x) != Some(x) && Up(Lift(t, x), a, n).Some?
    ensures Up(Lift(t, x), a, n).value != x
    ensures n > 0 ==> Reaches(t, a, Up(Lift(t, x), a, n).value)
  {
    if n > 0 {
      UpShorter(Lift(t, x), a, n - 1, n);
      LiftReachesOnlyBefore(t, x, a, n - 1);
      var y := Up(Lift(t, x), a, n - 1).value;
      LiftStep(t, x, y);
      var z := Up(Lift(t, x), a, n).value;
      if ParentOf(t, y) == Some(x) {
        assert Up(t, y, 0) == Some(y) && Up(t, y, 1) == Some(x) && Up(t, y, 2) == Some(z);
      } else {
        assert Up(t, y, 0) == Some(y) && Up(t, y, 1) == Some(z);
      }
      assert Reaches(t, y, z);
      if n > 1 { ReachesTransitive(t, a, y, z); } else { assert y == a; }
    }
  }

  lemma {:induction false} LiftReachesAllBefore(t: Tree, x: Node, a: Node, b: Node, n: nat)
    requires a != x && b != x && ParentOf(t, x) != Some(x) && n > 0 && Up(t, a, n) == Some(b)
    ensures Reaches(Lift(t, x), a, b)
    decreases n
  {
    UpShorter(t, a, 1, n);
    assert Up(t, a, 0) == Some(a);
    var p := Up(t, a, 1).value;
    LiftStep(t, x, a);
    var w := Lift(t, x);
    assert Up(w, a, 0) == Some(a);
    UpSplit(t, a, 1, n - 1);
    if p != x {
      assert Up(w, a, 1) == Some(p) && Reaches(w, a, p);
      if n > 1 {
        LiftReachesAllBefore(t, x, p, b, n - 1);
        ReachesTransitive(w, a, p, b);
      } else {
        assert p == b;
      }
    } else {
      UpShorter(t, a, 2, n);
      var q := ParentOf(t, x).value;
      assert Up(t, a, 2) == Some(q) && Up(w, a, 1) == Some(q) && Reaches(w, a, q);
      UpSplit(t, a, 2, n - 2);
      if n > 2 {
        LiftReachesAllBefore(t, x, q, b, n - 2);
        ReachesTransitive(w, a, q, b);
      } else {
        assert q == b;
      }
    }
  }

  /** Taking out a node that is not its own parent preserves exactly the
      ancestor relation among the others. */
  lemma LiftKeepsAncestors(t: Tree, x: Node, a: Node, b: Node)
    requires a != x && b != x && ParentOf(t, x) != Some(x)
    ensures Reaches(Lift(t, x), a, b) <==> Reaches(t, a, b)
  {
    if Reaches(Lift(t, x), a, b) {
      var n: nat :| n > 0 && Up(Lift(t, x), a, n) == Some(b);
      LiftReachesOnlyBefore(t, x, a, n);
    }
    if Reaches(t, a, b) {
      var n: nat :| n > 0 && Up(t, a, n) == Some(b);
      LiftReachesAllBefore(t, x, a, b, n);
    }
  }

  lemma LiftKeepsForest(t: Tree, x: Node)
    requires Acyclic(t) && Closed(t)
    ensures Acyclic(Lift(t, x)) && Closed(Lift(t, x))
  {
    NotOwnParent(t, x);
    forall a: Node
      ensures !Reaches(Lift(t, x), a, a)
    {
      if a == x {
        forall n: nat | n > 0
          ensures Up(Lift(t, x), x, n) == None
        {
          NowhereUp(Lift(t, x), x, n);
        }
      } else {
        LiftKeepsAncestors(t, x, a, a);
      }
    }
  }

  lemma NotOwnParent(t: Tree, x: Node)
    requires Acyclic(t)
    ensures ParentOf(t, x) != Some(x)
  {
    assert Up(t, x, 0) == Some(x) && Up(t, x, 1) == ParentOf(t, x);
    assert ParentOf(t, x) == Some(x) ==> Reaches(t, x, x);
  }

  // ----- subtrees -----

  /** `x` is `root` or below it. */
  ghost predicate Under(t: Tree, root: Node, x: Node) { exists n: nat :: Up(t, x, n) == Some(root) }

  lemma RootIsUnder(t: Tree, root: Node)
    ensures Under(t, root, root)
  {
    assert Up(t, root, 0) == Some(root);
  }

  lemma ChildIsUnder(t: Tree, root: Node, x: Node, c: Node)
    requires Under(t, root, x) && ParentOf(t, c) == Some(x)
    ensures Under(t, root, c)
  {
    var n: nat :| Up(t, x, n) == Some(root);
    var m := n + 1;
    assert Up(t, c, 0) == Some(c) && Up(t, c, 1) == Some(x);
    UpSplit(t, c, 1, n);
    assert Up(t, c, m) == Some(root);
  }

  lemma ParentIsUnder(t: Tree, root: Node, x: Node) returns (z: Node)
    requires Under(t, root, x) && x != root
    ensures ParentOf(t, x) == Some(z) && Under(t, root, z)
  {
    var k: nat :| Up(t, x, k) == Some(root);
    UpShorter(t, x, 1, k);
    assert Up(t, x, 0) == Some(x);
    z := t[x].value;
    UpSplit(t, x, 1, k - 1);
    assert Up(t, z, k - 1) == Some(root);
  }
}
