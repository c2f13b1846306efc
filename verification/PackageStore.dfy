/** The snippet library of the client, changed in place: saving, deleting and
    copying packages with everything in them. */
module PackageStore {
  import opened Wrappers
  import opened Packages
  import F = Forest
  import T = Text

  /** `n` steps up from `x` there is a package with a parent, or one without. */
  ghost predicate Climbs(packages: PackageMap, x: Id, n: nat) {
    F.Up(WholeTree(packages), x, n).Some? && F.Up(WholeTree(packages), x, n).value in packages
  }

  ghost predicate AtTop(packages: PackageMap, x: Id, n: nat) {
    Climbs(packages, x, n) && packages[F.Up(WholeTree(packages), x, n).value].parent == None
  }

  /** `n` steps up from `x` a package has no parent, and none on the way was `ancestor`. */
  ghost predicate TopsOut(packages: PackageMap, x: Id, ancestor: Id, n: nat) {
    && AtTop(packages, x, n)
    && forall m: nat :: m <= n ==> F.Up(WholeTree(packages), x, m) != Some(ancestor)
  }

  /** A walk that is still going, meets the ancestor or leaves the table there,
      finds no top within the hops it may take. */
  lemma NoTop(packages: PackageMap, x: Id, ancestor: Id, hops: nat)
    requires F.Up(WholeTree(packages), x, hops).Some?
    requires hops >= MAX_HOPS || F.Up(WholeTree(packages), x, hops) == Some(ancestor) || !Climbs(packages, x, hops)
    ensures forall n: nat :: n < MAX_HOPS ==> !TopsOut(packages, x, ancestor, n)
  {
    var t := WholeTree(packages);
    forall n: nat | n < MAX_HOPS
      ensures !TopsOut(packages, x, ancestor, n)
    {
      if n < hops { F.UpShorter(t, x, n + 1, hops); }
      if n > hops && !Climbs(packages, x, hops) && F.Up(t, x, n).Some? { F.UpShorter(t, x, hops + 1, n); }
    }
  }

  /** The name says something, the parent is in the vault and ends at a top that
      is not the package nor below it, and a package to change is in the vault. */
  ghost predicate SaveAccepted(packages: PackageMap, vault: VaultId, id: Option<Id>, name: string, parent: Option<Id>) {
    && T.Trim(name) != ""
    && (parent.Some? ==> parent.value in packages && packages[parent.value].vault == vault)
    && (id.Some? ==> id.value in packages && packages[id.value].vault == vault)
    && (parent.Some? && id.Some? ==>
          exists n: nat :: n < MAX_HOPS && TopsOut(packages, parent.value, id.value, n))
  }

  class Library {
    var packages: PackageMap
    var snippets: map<Id, Snippet>
    var bindings: map<Id, Binding>
    var hosts: map<Id, HostRef>
    /** Random ids are drawn from here on. */
    var next: Id

    ghost predicate IdsKnown()
      reads this
    {
      && (forall id :: id in packages ==> id < next && (packages[id].parent.Some? ==> packages[id].parent.value < next))
      && (forall id :: id in snippets ==> id < next)
    }

    constructor ()
      ensures IdsKnown() && packages == map[] && snippets == map[]
    {
      packages, snippets, bindings, hosts, next := map[], map[], map[], map[], 0;
    }

    // ----- moving -----

    /** Walk up from `candidate`; the answer is exact within 64 hops, and a
        negative one is final. */
    method IsDescendant(candidate: Id, ancestor: Id) returns (r: Result<bool, Error>)
      ensures r == Ok(true) <==>
          exists n: nat :: n <= MAX_HOPS && F.Up(WholeTree(packages), candidate, n) == Some(ancestor)
      ensures r == Ok(false) ==> candidate != ancestor && !F.Reaches(WholeTree(packages), candidate, ancestor)
      ensures r == Ok(false) <==> exists n: nat :: n < MAX_HOPS && TopsOut(packages, candidate, ancestor, n)
    {
      ghost var t := WholeTree(packages);
      var cur, hops: nat := Some(candidate), 0;
      while cur.Some?
        invariant cur == F.Up(t, candidate, hops) && hops <= MAX_HOPS
        invariant forall m: nat :: m < hops ==> F.Up(t, candidate, m) != Some(ancestor)
        invariant forall m: nat :: m < hops ==> Climbs(packages, candidate, m)
        invariant cur.None? ==> hops > 0 && AtTop(packages, candidate, hops - 1)
        decreases MAX_HOPS + 1 - hops, cur.Some?
      {
        var id := cur.value;
        if id == ancestor {
          NoTop(packages, candidate, ancestor, hops);
          return Ok(true);
        }
        if hops + 1 > MAX_HOPS {
          NoTop(packages, candidate, ancestor, hops);
          return Err(TooDeep);
        }
        if id !in packages {
          ghost var gone := hops + 1;
          assert F.Up(t, candidate, gone) == None;
          NoTop(packages, candidate, ancestor, hops);
          NeverAfter(t, candidate, hops + 1, ancestor);
          return Err(NotFound);
        }
        cur := packages[id].parent;
        hops := hops + 1;
      }
      assert F.Up(t, candidate, 0) == Some(candidate);
      NeverAfter(t, candidate, hops, ancestor);
      assert TopsOut(packages, candidate, ancestor, hops - 1);
      r := Ok(false);
    }

    /** Create, rename or re-parent a package. */
    method SavePackage(vault: VaultId, id: Option<Id>, name: string, parent: Option<Id>) returns (r: Result<Id, Error>)
      requires IdsKnown()
      modifies this`packages, this`next
      ensures IdsKnown()
      ensures r.Ok? ==>
        r.value in packages && packages == old(packages)[r.value := Package(vault, T.Trim(name), parent)] &&
        (id.Some? ==> r.value == id.value && r.value in old(packages)) && (id.None? ==> r.value !in old(packages))
      ensures r.Ok? <==> SaveAccepted(old(packages), vault, id, name, parent)
      ensures r.Err? ==> packages == old(packages) || SavedElsewhere(old(packages), packages, vault, id, name, parent)
      ensures F.Acyclic(WholeTree(old(packages))) ==> F.Acyclic(WholeTree(packages))
    {
      if T.Trim(name) == "" { return Err(Invalid); }
      if parent.Some? {
        if parent.value !in packages { return Err(NotFound); }
        if packages[parent.value].vault != vault { return Err(OtherVault); }
        if id.Some? {
          var below := IsDescendant(parent.value, id.value);
          if below.Err? { return Err(below.error); }
          if below.value { return Err(IntoItself); }
        }
      }
      ghost var before := WholeTree(packages);
      var me: Id;
      if id.Some? {
        me := id.value;
        if me !in packages { return Err(NotFound); }
        packages := packages[me := Package(packages[me].vault, T.Trim(name), parent)];
      } else {
        me, next := next, next + 1;
        packages := packages[me := Package(vault, T.Trim(name), parent)];
        if parent.Some? { NobodyReachesNew(before, parent.value, me); }
      }
      assert WholeTree(packages) == F.Reparent(before, me, parent);
      if F.Acyclic(before) { F.ReparentIsAcyclicExactly(before, me, parent); }
      if packages[me].vault != vault { return Err(NotFound); }
      r := Ok(me);
    }

    // ----- deleting -----

    method LiftSnippets(vault: VaultId, id: Id, parent: Option<Id>)
      modifies this`snippets
      ensures snippets == LiftedSnippets(old(snippets), vault, id, parent)
    {
      var left := snippets.Keys;
      while left != {}
        invariant left <= snippets.Keys == old(snippets).Keys
        invariant forall s :: s in snippets ==>
          snippets[s] == if s in left then old(snippets)[s] else LiftedSnippets(old(snippets), vault, id, parent)[s]
      {
        var s :| s in left;
        left := left - {s};
        if snippets[s].vault == vault && snippets[s].package == Some(id) {
          snippets := snippets[s := snippets[s].(package := parent)];
        }
      }
    }

    method LiftPackages(vault: VaultId, id: Id, parent: Option<Id>)
      modifies this`packages
      ensures packages.Keys == old(packages).Keys
      ensures forall p :: p in packages ==> packages[p] == Moved(old(packages)[p], vault, id, parent)
    {
      var left := packages.Keys;
      while left != {}
        invariant left <= packages.Keys == old(packages).Keys
        invariant forall p :: p in packages ==>
          packages[p] == if p in left then old(packages)[p] else Moved(old(packages)[p], vault, id, parent)
      {
        var p :| p in left;
        left := left - {p};
        if packages[p].vault == vault && packages[p].parent == Some(id) {
          packages := packages[p := packages[p].(parent := parent)];
        }
      }
    }

    /** A package goes; what it held is held by its parent from then on. */
    method DeletePackage(id: Id) returns (r: Result<(), Error>)
      modifies this`packages, this`snippets
      ensures r.Ok? <==> id in old(packages)
      ensures r.Err? ==> packages == old(packages) && snippets == old(snippets)
      ensures r.Ok? ==> packages.Keys == old(packages).Keys - {id}
      ensures r.Ok? ==> forall p :: p in packages ==>
        var was, gone := old(packages)[p], old(packages)[id];
        packages[p] == if was.vault == gone.vault && was.parent == Some(id) then was.(parent := gone.parent) else was
      ensures snippets.Keys == old(snippets).Keys
      ensures r.Ok? ==> forall s :: s in snippets ==>
        var was, gone := old(snippets)[s], old(packages)[id];
        snippets[s] == if was.vault == gone.vault && was.package == Some(id) then was.(package := gone.parent) else was
      ensures r.Ok? ==> packages == Lifted(old(packages), id)
      ensures r.Ok? ==>
        snippets == LiftedSnippets(old(snippets), old(packages)[id].vault, id, old(packages)[id].parent)
    {
      if id !in packages { return Err(NotFound); }
      var pkg := packages[id];
      LiftSnippets(pkg.vault, id, pkg.parent);
      LiftPackages(pkg.vault, id, pkg.parent);
      packages := packages - {id};
      r := Ok(());
    }

    // ----- copying -----

    /** The packages of a vault, each once. */
    method List(vault: VaultId) returns (ids: seq<Id>)
      ensures forall id :: id in ids <==> id in packages && packages[id].vault == vault
      ensures forall i, j :: 0 <= i < j < |ids| ==> ids[i] != ids[j]
    {
      ids := [];
      var left := packages.Keys;
      while left != {}
        invariant left <= packages.Keys
        invariant forall id :: id in ids <==> id in packages && id !in left && packages[id].vault == vault
        invariant forall i, j :: 0 <= i < j < |ids| ==> ids[i] != ids[j]
      {
        var id :| id in left;
        left := left - {id};
        if packages[id].vault == vault { ids := ids + [id]; }
      }
    }

    /** Queue the children of `src`; one that is copied already shows a cycle. */
    static method Children(p: PackageMap, all: seq<Id>, src: Id, copied: set<Id>, newId: Id)
        returns (r: Result<Queue, Error>)
      requires forall id :: id in all ==> id in p
      requires forall i, j :: 0 <= i < j < |all| ==> all[i] != all[j]
      ensures r.Err? ==> exists c :: c in all && p[c].parent == Some(src) && c in copied
      ensures r.Ok? ==> forall c :: c in Ids(r.value) <==> c in all && p[c].parent == Some(src)
      ensures r.Ok? ==> forall c :: c in Ids(r.value) ==> c !in copied
      ensures r.Ok? ==> forall i, j :: 0 <= i < j < |r.value| ==> r.value[i].0 != r.value[j].0
      ensures r.Ok? ==> forall i :: 0 <= i < |r.value| ==> r.value[i].1 == Some(newId)
    {
      var kids: Queue := [];
      for k := 0 to |all|
        invariant forall c :: c in Ids(kids) <==> c in all[..k] && p[c].parent == Some(src)
        invariant forall c :: c in Ids(kids) ==> c !in copied
        invariant forall i, j :: 0 <= i < j < |kids| ==> kids[i].0 != kids[j].0
        invariant forall i :: 0 <= i < |kids| ==> kids[i].1 == Some(newId)
      {
        var c := all[k];
        assert c !in all[..k];
        assert all[..k + 1] == all[..k] + [c];
        if p[c].parent == Some(src) {
          if c in copied { return Err(Cycle); }
          IdsAppend(kids, [(c, Some(newId))]);
          assert Ids([(c, Some(newId))]) == [c];
          assert c !in Ids(kids);
          assert forall i :: 0 <= i < |kids| ==> kids[i].0 == Ids(kids)[i] && Ids(kids)[i] in Ids(kids);
          kids := kids + [(c, Some(newId))];
        }
      }
      assert all[..|all|] == all;
      r := Ok(kids);
    }

    method InsertPackage(p: Package) returns (id: Id)
      requires IdsKnown() && (p.parent.Some? ==> p.parent.value < next)
      modifies this`packages, this`next
      ensures IdsKnown() && id !in old(packages) && packages == old(packages)[id := p] && next == old(next) + 1 &&
          id == old(next)
    {
      id, next := next, next + 1;
      packages := packages[id := p];
    }

    /** Copy one queued package and find its children. */
    method CopyOne(ghost p: PackageMap, all: seq<Id>, src: Id, newParent: Option<Id>, vault: VaultId, m: map<Id, Id>)
      returns (r: Result<Queue, Error>, newId: Id)
      requires IdsKnown() && OldKept(p, packages) && src in p && (newParent.Some? ==> newParent.value < next)
      requires forall id :: id in all ==> id in p
      requires forall i, j :: 0 <= i < j < |all| ==> all[i] != all[j]
      modifies this`packages, this`next
      ensures IdsKnown() && newId !in old(packages) && newId < next && old(next) <= next
      ensures packages == old(packages)[newId := Package(vault, p[src].name, newParent)]
      ensures r.Err? ==> exists c :: c in all && p[c].parent == Some(src) && c in m.Keys + {src}
      ensures r.Ok? ==> KidsListed(p, all, src, m.Keys + {src}, Ids(r.value)) && forall k :: 0 <= k < |r.value| ==>
          r.value[k].1 == Some(newId)
    {
      newId := InsertPackage(Package(vault, packages[src].name, newParent));
      r := Children(packages, all, src, m.Keys + {src}, newId);
    }

    /** One turn of the copy: the head of the queue is copied, its children join the end. */
    method CopyTurn(ghost p: PackageMap, all: seq<Id>, root: Id, vault: VaultId, m: map<Id, Id>, todo: Queue)
      returns (r: Result<Queue, Error>, m': map<Id, Id>)
      requires IdsKnown() && CopyInv(p, packages, root, vault, m, todo, next) && todo != [] && ListedOnce(p, root, all)
      modifies this`packages, this`next
      ensures IdsKnown() && NewInside(p, packages, vault) && OldKept(p, packages)
      ensures r.Err? ==> F.Reaches(TreeOf(p, p[root].vault), root, root)
      ensures r.Ok? ==> CopyInv(p, packages, root, vault, m', todo[1..] + r.value, next)
      ensures r.Ok? ==> todo[0].0 !in m && m'.Keys == m.Keys + {todo[0].0}
    {
      hide Bfs, KidsListed, Lists, NewInside, OldKept, ParentsDrawn, F.Reaches, TreeOf, IdsKnown, NewParent;
      var (src, newParent) := todo[0];
      ghost var q, before := packages, next;
      FirstIsNew(p, q, root, vault, m, todo);
      var newId;
      BfsKeepsOld(p, q, root, vault, m, todo);
      HeadDrawn(todo, next);
      ListsInside(p, root, all);
      r, newId := CopyOne(p, all, src, newParent, vault, m);
      InsideStep(p, q, vault, newId, Package(vault, p[src].name, newParent));
      m' := m[src := newId];
      if r.Err? {
        ClashIsCycle(p, q, root, vault, m, todo, all);
      } else {
        BfsStep(p, q, root, vault, m, todo, newId, r.value, all);
        DrawnStep(todo, r.value, before, next);
      }
    }

    /** One level of the subtree: everything queued is copied, its children are queued in turn. */
    method CopyLevel(ghost p: PackageMap, all: seq<Id>, root: Id, vault: VaultId, m: map<Id, Id>, queue: Queue)
      returns (r: Result<Queue, Error>, m': map<Id, Id>)
      requires IdsKnown() && CopyInv(p, packages, root, vault, m, queue, next) && queue != [] &&
          ListedOnce(p, root, all)
      modifies this`packages, this`next
      ensures IdsKnown() && NewInside(p, packages, vault) && OldKept(p, packages)
      ensures r.Err? ==> F.Reaches(TreeOf(p, p[root].vault), root, root)
      ensures r.Ok? ==> CopyInv(p, packages, root, vault, m', r.value, next)
      ensures r.Ok? ==> m.Keys <= m'.Keys && queue[0].0 in m' && queue[0].0 !in m
    {
      hide Bfs, NewInside, OldKept, F.Reaches, TreeOf, Lists, ParentsDrawn;
      FirstIsNew(p, packages, root, vault, m, queue);
      var ahead: Queue := [];
      m' := m;
      assert queue[0..] + ahead == queue;
      for i := 0 to |queue|
        invariant IdsKnown() && CopyInv(p, packages, root, vault, m', queue[i..] + ahead, next)
        invariant m.Keys <= m'.Keys && (i > 0 ==> queue[0].0 in m')
      {
        ghost var todo := queue[i..] + ahead;
        assert todo[0] == queue[i] && todo[1..] == queue[i + 1..] + ahead;
        var kids;
        kids, m' := CopyTurn(p, all, root, vault, m', queue[i..] + ahead);
        if kids.Err? { return kids, m'; }
        assert todo[1..] + kids.value == queue[i + 1..] + (ahead + kids.value);
        ahead := ahead + kids.value;
      }
      assert queue[|queue|..] + ahead == ahead;
      BfsKeepsOld(p, packages, root, vault, m', ahead);
      r := Ok(ahead);
    }

    /** Copy the subtree of `root`, parents before children. It ends on every
        parent map, and fails exactly when the root is on a cycle. */
    method CopyTree(root: Id, vault: VaultId) returns (r: Result<map<Id, Id>, Error>)
      requires IdsKnown() && root in packages
      modifies this`packages, this`next
      ensures IdsKnown() && OldKept(old(packages), packages) && NewInside(old(packages), packages, vault)
      ensures r.Ok? <==> !F.Reaches(TreeOf(old(packages), old(packages)[root].vault), root, root)
      ensures r.Ok? ==> TreeCopied(old(packages), packages, root, vault, r.value)
    {
      ghost var p := packages;
      var all := List(packages[root].vault);
      var m: map<Id, Id> := map[];
      var queue: Queue := [(root, None)];
      BfsStarts(p, root, vault);
      hide Bfs, TreeCopied, F.Reaches, OldKept;
      while queue != []
        invariant IdsKnown() && CopyInv(p, packages, root, vault, m, queue, next)
        decreases p.Keys - m.Keys
      {
        FirstIsNew(p, packages, root, vault, m, queue);
        var ahead, m' := CopyLevel(p, all, root, vault, m, queue);
        if ahead.Err? { return Err(ahead.error); }
        m, queue := m', ahead.value;
      }
      BfsEnds(p, packages, root, vault, m);
      BfsKeepsOld(p, packages, root, vault, m, []);
      r := Ok(m);
    }

    method InsertSnippet(s: Snippet) returns (id: Id)
      requires IdsKnown()
      modifies this`snippets, this`next
      ensures IdsKnown() && id !in old(snippets) && snippets == old(snippets)[id := s]
    {
      id, next := next, next + 1;
      snippets := snippets[id := s];
    }

    /** Copy the snippets of every copied package along. */
    method CopySnippets(from: VaultId, vault: VaultId, m: map<Id, Id>) returns (moved: seq<Id>, ghost sm: map<Id, Id>)
      requires IdsKnown()
      modifies this`snippets, this`next
      ensures IdsKnown() && SnippetsCopied(old(snippets), snippets, from, vault, m, sm)
      ensures forall s :: s in moved <==> s in sm
    {
      var was := snippets;
      moved, sm := [], map[];
      var left := was.Keys;
      assert SnippetsSoFar(was, was, vault, m, map[]);
      hide SnippetsSoFar, CopyOf, Travels, IdsKnown;
      while left != {}
        invariant left <= was.Keys && IdsKnown() && SnippetsSoFar(was, snippets, vault, m, sm)
        invariant forall s :: s in sm <==> s !in left && Travels(was, from, m, s)
        invariant forall s :: s in moved <==> s in sm
      {
        var s :| s in left;
        left := left - {s};
        if Travels(was, from, m, s) {
          ghost var before := snippets;
          var newId := InsertSnippet(CopyOf(was[s], vault, m));
          SnippetStep(was, before, vault, m, sm, s, newId);
          moved, sm := moved + [s], sm[s := newId];
        }
      }
    }

    /** No binding and no host's startup refers to the snippet when it goes. */
    method DeleteSnippet(id: Id)
      requires id in snippets
      modifies this`snippets, this`bindings, this`hosts
      ensures snippets == old(snippets) - {id}
      ensures RefsGone(old(bindings), bindings, old(hosts), hosts, old(snippets)[id].vault, {id})
      ensures bindings == BindingsWithout(old(bindings), old(snippets)[id].vault, id)
      ensures hosts == StartupsWithout(old(hosts), old(snippets)[id].vault, id)
    {
      var vault := snippets[id].vault;
      bindings := BindingsWithout(bindings, vault, id);
      hosts := StartupsWithout(hosts, vault, id);
      snippets := snippets - {id};
    }

    method DeleteSnippets(ids: seq<Id>, vault: VaultId)
      requires forall id :: id in ids ==> id in snippets && snippets[id].vault == vault
      modifies this`snippets, this`bindings, this`hosts
      ensures snippets == old(snippets) - SetOf(ids)
      ensures RefsGone(old(bindings), bindings, old(hosts), hosts, vault, SetOf(ids))
    {
      hide RefsGone, BindingsWithout, StartupsWithout, SetOf;
      NoRefsGone(bindings, hosts, vault, ids[..0]);
      for i := 0 to |ids|
        invariant snippets == old(snippets) - SetOf(ids[..i])
        invariant RefsGone(old(bindings), bindings, old(hosts), hosts, vault, SetOf(ids[..i]))
      {
        SetOfNext(ids, i);
        if ids[i] in snippets {
          ghost var b, h := bindings, hosts;
          DeleteSnippet(ids[i]);
          MoreRefsGone(old(bindings), b, bindings, old(hosts), h, hosts, vault, SetOf(ids[..i]), ids[i]);
        }
      }
      assert ids[..|ids|] == ids;
    }

    /** The second half of a move: the originals go. */
    method TakeAway(moved: seq<Id>, from: VaultId, copied: set<Id>, ghost sm: map<Id, Id>)
      requires forall s :: s in moved <==> s in sm
      requires forall s :: s in sm ==> s in snippets && snippets[s].vault == from
      modifies this`packages, this`snippets, this`bindings, this`hosts
      ensures packages == old(packages) - copied && snippets == old(snippets) - sm.Keys
      ensures RefsGone(old(bindings), bindings, old(hosts), hosts, from, sm.Keys)
    {
      DeleteSnippets(moved, from);
      assert SetOf(moved) == sm.Keys;
      packages := packages - copied;
    }

    /** Copy, or move, a package with its whole subtree into another vault. */
    method CopyPackageToVault(id: Id, vault: VaultId, mv: bool)
      returns (r: Result<Id, Error>, ghost m: map<Id, Id>, ghost sm: map<Id, Id>, ghost full: PackageMap,
        ghost fullSnippets: map<Id, Snippet>)
      requires IdsKnown()
      modifies this
      ensures r.Ok? <==> id in old(packages) && old(packages)[id].vault != vault &&
                         !F.Reaches(TreeOf(old(packages), old(packages)[id].vault), id, id)
      ensures r.Ok? ==> TreeCopied(old(packages), full, id, vault, m) && id in m && r.value == m[id]
      ensures r.Ok? ==> SnippetsCopied(old(snippets), fullSnippets, old(packages)[id].vault, vault, m, sm)
      ensures r.Ok? ==> packages == if mv then full - m.Keys else full
      ensures r.Ok? ==> snippets == if mv then fullSnippets - sm.Keys else fullSnippets
      ensures r.Ok? ==> NamesFollow(old(packages), full, vault, m)
      ensures r.Ok? ==> SnippetsFollow(old(snippets), fullSnippets, old(packages)[id].vault, vault, m, sm)
      ensures r.Ok? && mv ==>
        RefsGone(old(bindings), bindings, old(hosts), hosts, old(packages)[id].vault, sm.Keys)
      ensures r.Err? || !mv ==> OldKept(old(packages), packages) && bindings == old(bindings) && hosts == old(hosts)
      ensures r.Err? ==> snippets == old(snippets) && NewInside(old(packages), packages, vault)
    {
      m, sm, full, fullSnippets := map[], map[], packages, snippets;
      if id !in packages { return Err(NotFound), m, sm, full, fullSnippets; }
      var from := packages[id].vault;
      if from == vault { return Err(SameVault), m, sm, full, fullSnippets; }
      var copied := CopyTree(id, vault);
      if copied.Err? { return Err(copied.error), m, sm, full, fullSnippets; }
      m, full := copied.value, packages;
      assert id in m by { CopiesRoot(old(packages), packages, id, vault, m); }
      CopiesNames(old(packages), packages, id, vault, m);
      hide TreeCopied, OldKept, SnippetsSoFar, SnippetsCopied, SnippetsFollow, F.Reaches, NewInside, IdsKnown, RefsGone;
      var moved;
      moved, sm := CopySnippets(from, vault, copied.value);
      fullSnippets := snippets;
      CopiesFollow(old(snippets), snippets, from, vault, m, sm);
      if mv {
        SourceSnippets(old(snippets), snippets, from, vault, m, sm);
        TakeAway(moved, from, copied.value.Keys, sm);
      }
      r := Ok(copied.value[id]);
    }
  }

  lemma CopiesRoot(p: PackageMap, q: PackageMap, root: Id, vault: VaultId, m: map<Id, Id>)
    requires root in p && TreeCopied(p, q, root, vault, m)
    ensures root in m && OldKept(p, q)
  {
    F.RootIsUnder(TreeOf(p, p[root].vault), root);
  }

  lemma CopiesNames(p: PackageMap, q: PackageMap, root: Id, vault: VaultId, m: map<Id, Id>)
    requires root in p && TreeCopied(p, q, root, vault, m)
    ensures NamesFollow(p, q, vault, m)
  {
  }

  /** Each copy has the name of its original. */
  predicate NamesFollow(p: PackageMap, q: PackageMap, vault: VaultId, m: map<Id, Id>) {
    forall x :: x in m ==> x in p && m[x] in q && q[m[x]].name == p[x].name && q[m[x]].vault == vault
  }

  lemma SourceSnippets(was: map<Id, Snippet>, now: map<Id, Snippet>, from: VaultId, vault: VaultId, m: map<Id, Id>,
      sm: map<Id, Id>)
    requires SnippetsCopied(was, now, from, vault, m, sm)
    ensures forall s :: s in sm ==> s in now && now[s].vault == from
  {
    hide CopyOf;
  }

  /** A move takes exactly the subtree and its snippets out of the source vault. */
  lemma MoveTakesExactly(
    p: PackageMap, q: PackageMap, root: Id, vault: VaultId, m: map<Id, Id>, was: map<Id, Snippet>,
      now: map<Id, Snippet>, sm: map<Id, Id>)
    requires root in p && p[root].vault != vault && TreeCopied(p, q, root, vault, m)
    requires SnippetsCopied(was, now, p[root].vault, vault, m, sm)
    ensures forall x :: x in p ==> (x in q - m.Keys <==> !F.Under(TreeOf(p, p[root].vault), root, x))
    ensures forall x :: x in p && x in q - m.Keys ==> (q - m.Keys)[x] == p[x]
    ensures forall s :: s in was ==> (s in now - sm.Keys <==> !Travels(was, p[root].vault, m, s))
    ensures forall s :: s in was && s in now - sm.Keys ==> (now - sm.Keys)[s] == was[s]
  {
    hide NewIds, NewRows, F.Under, Travels;
  }

  // ----- the snippets that go along -----

  /** The snippets of the source vault that sit in a copied package. */
  predicate Travels(snippets: map<Id, Snippet>, from: VaultId, m: map<Id, Id>, s: Id) {
    s in snippets && snippets[s].vault == from && snippets[s].package.Some? && snippets[s].package.value in m
  }

  function CopyOf(s: Snippet, vault: VaultId, m: map<Id, Id>): Snippet {
    s.(vault := vault, package := if s.package.Some? && s.package.value in m then Some(m[s.package.value]) else None)
  }

  /** `sm` leads from every travelling snippet to its one copy, in the copy of its package. */
  ghost predicate SnippetsCopied(
    was: map<Id, Snippet>, now: map<Id, Snippet>, from: VaultId, vault: VaultId, m: map<Id, Id>, sm: map<Id, Id>)
  {
    && (forall s :: s in sm <==> Travels(was, from, m, s))
    && SnippetsSoFar(was, now, vault, m, sm)
  }

  ghost predicate SnippetsSoFar(was: map<Id, Snippet>, now: map<Id, Snippet>, vault: VaultId, m: map<Id, Id>,
      sm: map<Id, Id>)
  {
    && (forall s :: s in was ==> s in now && now[s] == was[s])
    && (forall s :: s in sm ==> s in was && sm[s] !in was && sm[s] in now && now[sm[s]] == CopyOf(was[s], vault, m))
    && (forall s, u :: s in sm && u in sm && sm[s] == sm[u] ==> s == u)
    && now.Keys == was.Keys + sm.Values
  }

  lemma SnippetStep(
    was: map<Id, Snippet>, now: map<Id, Snippet>, vault: VaultId, m: map<Id, Id>, sm: map<Id, Id>, s: Id, newId: Id)
    requires SnippetsSoFar(was, now, vault, m, sm) && s in was && s !in sm && newId !in now
    ensures SnippetsSoFar(was, now[newId := CopyOf(was[s], vault, m)], vault, m, sm[s := newId])
  {
    var sm' := sm[s := newId];
    assert sm'.Values == sm.Values + {newId} by {
      assert forall x :: x in sm ==> sm'[x] == sm[x];
      assert sm'[s] == newId;
    }
    assert newId !in sm.Values && newId !in was;
  }

  /** The snippets of the source vault in copied packages, and only those, have a
      copy with the same body in the copy of their package; the others are as they were. */
  ghost predicate SnippetsFollow(
    was: map<Id, Snippet>, now: map<Id, Snippet>, from: VaultId, vault: VaultId, m: map<Id, Id>, sm: map<Id, Id>)
  {
    && (forall s :: s in sm <==>
          s in was && was[s].vault == from && was[s].package.Some? && was[s].package.value in m)
    && (forall s :: s in sm && s in was && was[s].package.Some? && was[s].package.value in m ==>
          sm[s] !in was && sm[s] in now && now[sm[s]] == Snippet(vault, Some(m[was[s].package.value]), was[s].body))
    && (forall s, u :: s in sm && u in sm && sm[s] == sm[u] ==> s == u)
    && (forall s :: s in was ==> s in now && now[s] == was[s]) && now.Keys == was.Keys + sm.Values
  }

  lemma CopiesFollow(was: map<Id, Snippet>, now: map<Id, Snippet>, from: VaultId, vault: VaultId, m: map<Id, Id>,
      sm: map<Id, Id>)
    requires SnippetsCopied(was, now, from, vault, m, sm)
    ensures SnippetsFollow(was, now, from, vault, m, sm)
  {
  }

  /** Exactly the bindings of the snippets that went are gone, and exactly the
      startups that named one are empty. */
  ghost predicate RefsGone(bindings: map<Id, Binding>, bindings': map<Id, Binding>, hosts: map<Id, HostRef>,
      hosts': map<Id, HostRef>, vault: VaultId, gone: set<Id>)
  {
    && (forall b :: b in bindings' <==>
          b in bindings && !(bindings[b].vault == vault && bindings[b].snippet in gone))
    && (forall b :: b in bindings' && b in bindings ==> bindings'[b] == bindings[b])
    && hosts'.Keys == hosts.Keys
    && (forall h :: h in hosts' && h in hosts ==> hosts'[h] == StartupLeft(hosts[h], vault, gone))
  }

  function StartupLeft(h: HostRef, vault: VaultId, gone: set<Id>): HostRef {
    if h.vault == vault && h.startup.Some? && h.startup.value in gone then HostRef(vault, None) else h
  }

  function SetOf(ids: seq<Id>): set<Id> { set id | id in ids }

  lemma SetOfNext(ids: seq<Id>, i: nat)
    requires i < |ids|
    ensures SetOf(ids[..i + 1]) == SetOf(ids[..i]) + {ids[i]}
    ensures ids[i] in ids
    ensures ids[i] in SetOf(ids[..i]) ==> SetOf(ids[..i + 1]) == SetOf(ids[..i])
  {
    assert ids[..i + 1] == ids[..i] + [ids[i]];
  }

  lemma NoRefsGone(b: map<Id, Binding>, h: map<Id, HostRef>, vault: VaultId, none: seq<Id>)
    requires none == []
    ensures RefsGone(b, b, h, h, vault, SetOf(none)) && SetOf(none) == {}
  {
  }

  lemma MoreRefsGone(b: map<Id, Binding>, b1: map<Id, Binding>, b2: map<Id, Binding>, h: map<Id, HostRef>,
      h1: map<Id, HostRef>, h2: map<Id, HostRef>, vault: VaultId, gone: set<Id>, id: Id)
    requires RefsGone(b, b1, h, h1, vault, gone) && RefsGone(b1, b2, h1, h2, vault, {id})
    ensures RefsGone(b, b2, h, h2, vault, gone + {id})
  {
  }

  /** What goes with a deleted snippet: its bindings, and startup references to it. */
  function BindingsWithout(bindings: map<Id, Binding>, vault: VaultId, id: Id): map<Id, Binding> {
    map b | b in bindings && !(bindings[b].vault == vault && bindings[b].snippet == id) :: bindings[b]
  }

  function StartupsWithout(hosts: map<Id, HostRef>, vault: VaultId, id: Id): map<Id, HostRef> {
    map h | h in hosts :: if hosts[h].vault == vault &&
      hosts[h].startup == Some(id) then hosts[h].(startup := None) else hosts[h]
  }

  /** Everything the copy loop keeps. */
  ghost predicate CopyInv(p: PackageMap, q: PackageMap, root: Id, vault: VaultId, m: map<Id, Id>, todo: Queue,
      next: Id)
  {
    root in p && NewInside(p, q, vault) && Bfs(p, q, root, vault, m, todo) && ParentsDrawn(todo, next)
  }

  ghost predicate ListedOnce(p: PackageMap, root: Id, all: seq<Id>) {
    && root in p && Lists(p, root, all)
    && (forall i, j :: 0 <= i < j < |all| ==> all[i] != all[j])
  }

  lemma HeadDrawn(todo: Queue, next: Id)
    requires ParentsDrawn(todo, next) && todo != []
    ensures todo[0].1.Some? ==> todo[0].1.value < next
  {
  }

  lemma ListsInside(p: PackageMap, root: Id, all: seq<Id>)
    requires root in p && Lists(p, root, all)
    ensures forall id :: id in all ==> id in p
  {
  }

  lemma InsideStep(p: PackageMap, q: PackageMap, vault: VaultId, newId: Id, row: Package)
    requires NewInside(p, q, vault) && OldKept(p, q) && row.vault == vault && newId !in q
    ensures NewInside(p, q[newId := row], vault) && OldKept(p, q[newId := row])
  {
  }

  lemma BfsKeepsOld(p: PackageMap, q: PackageMap, root: Id, vault: VaultId, m: map<Id, Id>, todo: Queue)
    requires root in p && Bfs(p, q, root, vault, m, todo)
    ensures OldKept(p, q)
  {
  }

  lemma DrawnStep(todo: Queue, kids: Queue, before: Id, next: Id)
    requires ParentsDrawn(todo, before) && before <= next && todo != []
    requires forall k :: 0 <= k < |kids| && kids[k].1.Some? ==> kids[k].1.value < next
    ensures ParentsDrawn(todo[1..] + kids, next)
  {
    var after := todo[1..] + kids;
    forall k | 0 <= k < |after| && after[k].1.Some?
      ensures after[k].1.value < next
    {
      if k < |todo| - 1 { assert after[k] == todo[k + 1]; } else { assert after[k] == kids[k - (|todo| - 1)]; }
    }
  }

  /** Everything new is in the target vault. */
  ghost predicate NewInside(p: PackageMap, q: PackageMap, vault: VaultId) {
    forall id :: id in q && id !in p ==> q[id].vault == vault
  }

  ghost predicate ParentsDrawn(q: Queue, next: Id) {
    forall k :: 0 <= k < |q| && q[k].1.Some? ==> q[k].1.value < next
  }

  /** `all` lists the packages of the root's vault. */
  ghost predicate Lists(p: PackageMap, root: Id, all: seq<Id>)
    requires root in p
  {
    forall id :: id in all <==> id in p && p[id].vault == p[root].vault
  }

  ghost predicate KidsListed(p: PackageMap, all: seq<Id>, src: Id, copied: set<Id>, kids: seq<Id>)
    requires forall id :: id in all ==> id in p
  {
    && (forall c :: c in kids <==> c in all && p[c].parent == Some(src))
    && (forall c :: c in kids ==> c !in copied)
    && (forall i, j :: 0 <= i < j < |kids| ==> kids[i] != kids[j])
  }

  lemma FirstIsNew(p: PackageMap, q: PackageMap, root: Id, vault: VaultId, m: map<Id, Id>, todo: Queue)
    requires root in p && Bfs(p, q, root, vault, m, todo) && todo != []
    ensures todo[0].0 in p && todo[0].0 !in m && p[todo[0].0].vault == p[root].vault &&
        todo[0].1 == NewParent(p, root, m, todo[0].0)
  {
    assert Ids(todo)[0] in Ids(todo);
  }

  lemma ListedAreKids(p: PackageMap, root: Id, all: seq<Id>, src: Id, copied: set<Id>, kids: seq<Id>)
    requires root in p && Lists(p, root, all) && KidsListed(p, all, src, copied, kids)
    ensures KidsOf(TreeOf(p, p[root].vault), src, copied, kids)
  {
  }

  /** The parents of what is copied were copied before it, so one more copy changes none of their links. */
  lemma NewParentStays(p: PackageMap, root: Id, done: set<Id>, todo: seq<Id>, m: map<Id, Id>, src: Id, newId: Id, x: Id)
    requires root in p && Copying(TreeOf(p, p[root].vault), root, done, todo) && done == m.Keys && src !in m &&
        x in done
    ensures x in p && NewParent(p, root, m[src := newId], x) == NewParent(p, root, m, x)
  {
  }

  lemma RowsStep(p: PackageMap, q: PackageMap, root: Id, vault: VaultId, m: map<Id, Id>, todo: Queue, newId: Id)
    requires root in p && Bfs(p, q, root, vault, m, todo) && todo != [] && newId !in q
    ensures
      var src := todo[0].0;
      src in p && NewRows(p, q[newId := Package(vault, p[src].name, todo[0].1)], root, vault, m[src := newId])
  {
    var src := todo[0].0;
    FirstIsNew(p, q, root, vault, m, todo);
    var t := TreeOf(p, p[root].vault);
    var q', m' := q[newId := Package(vault, p[src].name, todo[0].1)], m[src := newId];
    forall x | x in m' && x in p
      ensures m'[x] in q' && q'[m'[x]] == Package(vault, p[x].name, NewParent(p, root, m', x))
    {
      if x != src {
        NewParentStays(p, root, m.Keys, Ids(todo), m, src, newId, x);
      } else {
        SourceParent(p, root, m, todo, newId);
      }
    }
  }

  lemma SourceParent(p: PackageMap, root: Id, m: map<Id, Id>, todo: Queue, newId: Id)
    requires root in p && todo != [] && Copying(TreeOf(p, p[root].vault), root, m.Keys, Ids(todo)) && todo[0].0 !in m
    ensures todo[0].0 in p && NewParent(p, root, m[todo[0].0 := newId], todo[0].0) == NewParent(p, root, m, todo[0].0)
  {
    assert Ids(todo)[0] in Ids(todo);
  }

  lemma NewIdsStep(p: PackageMap, q: PackageMap, m: map<Id, Id>, src: Id, newId: Id, row: Package)
    requires NewIds(p, q, m) && OldKept(p, q) && src in p && src !in m && newId !in q
    ensures NewIds(p, q[newId := row], m[src := newId]) && OldKept(p, q[newId := row])
  {
    var q', m' := q[newId := row], m[src := newId];
    assert newId !in p;
    forall id | id in q' && id !in p
      ensures exists x :: x in m' && m'[x] == id
    {
      if id == newId {
        assert m'[src] == id;
      } else {
        var x :| x in m && m[x] == id;
        assert m'[x] == id;
      }
    }
  }

  lemma ParentsStep(p: PackageMap, root: Id, m: map<Id, Id>, todo: Queue, newId: Id, kids: Queue)
    requires root in p && todo != [] && Copying(TreeOf(p, p[root].vault), root, m.Keys, Ids(todo)) && todo[0].0 !in m
    requires ParentsGiven(p, root, m, todo)
    requires forall k :: 0 <= k < |kids| ==>
        kids[k].0 in p && kids[k].0 != root && p[kids[k].0].parent == Some(todo[0].0) && kids[k].1 == Some(newId)
    ensures ParentsGiven(p, root, m[todo[0].0 := newId], todo[1..] + kids)
  {
    var src, m', after := todo[0].0, m[todo[0].0 := newId], todo[1..] + kids;
    forall k | 0 <= k < |after| && after[k].0 in p
      ensures after[k].1 == NewParent(p, root, m', after[k].0)
    {
      if k < |todo| - 1 {
        assert after[k] == todo[k + 1] && Ids(todo)[k + 1] == after[k].0;
        assert after[k].0 in Ids(todo);
      } else {
        assert after[k] == kids[k - (|todo| - 1)];
      }
    }
  }

  /** One turn of the copy loop. */
  lemma BfsStep(p: PackageMap, q: PackageMap, root: Id, vault: VaultId, m: map<Id, Id>, todo: Queue, newId: Id,
      kids: Queue, all: seq<Id>)
    requires root in p && Bfs(p, q, root, vault, m, todo) && todo != [] && newId !in q && Lists(p, root, all) &&
        todo[0].0 in p
    requires KidsListed(p, all, todo[0].0, m.Keys + {todo[0].0}, Ids(kids)) && forall k :: 0 <= k < |kids| ==>
        kids[k].1 == Some(newId)
    ensures Bfs(p, q[newId := Package(vault, p[todo[0].0].name, todo[0].1)], root, vault, m[todo[0].0 := newId],
        todo[1..] + kids)
  {
    var t, src := TreeOf(p, p[root].vault), todo[0].0;
    FirstIsNew(p, q, root, vault, m, todo);
    ListedAreKids(p, root, all, src, m.Keys + {src}, Ids(kids));
    TreeStep(t, root, m.Keys, Ids(todo), Ids(kids));
    IdsAppend(todo[1..], kids);
    assert Ids(todo)[1..] == Ids(todo[1..]);
    assert m[src := newId].Keys == m.Keys + {src};
    RowsStep(p, q, root, vault, m, todo, newId);
    NewIdsStep(p, q, m, src, newId, Package(vault, p[src].name, todo[0].1));
    KidsFit(p, root, all, m, todo, newId, kids);
    ParentsStep(p, root, m, todo, newId, kids);
  }

  lemma KidsFit(p: PackageMap, root: Id, all: seq<Id>, m: map<Id, Id>, todo: Queue, newId: Id, kids: Queue)
    requires root in p && todo != [] && Lists(p, root, all) &&
        KidsListed(p, all, todo[0].0, m.Keys + {todo[0].0}, Ids(kids))
    requires forall k :: 0 <= k < |kids| ==> kids[k].1 == Some(newId)
    requires root in m.Keys + {todo[0].0}
    ensures forall k :: 0 <= k < |kids| ==>
      kids[k].0 in p && kids[k].0 != root && p[kids[k].0].parent == Some(todo[0].0) && kids[k].1 == Some(newId)
  {
    forall k | 0 <= k < |kids|
      ensures kids[k].0 in p && kids[k].0 != root && p[kids[k].0].parent == Some(todo[0].0)
    {
      assert Ids(kids)[k] in Ids(kids);
    }
  }

  /** A child found copied already is the root, and the root is on a cycle. */
  lemma ClashIsCycle(p: PackageMap, q: PackageMap, root: Id, vault: VaultId, m: map<Id, Id>, todo: Queue, all: seq<Id>)
    requires root in p && Bfs(p, q, root, vault, m, todo) && todo != [] && Lists(p, root, all)
    requires exists c :: c in all && c in p && p[c].parent == Some(todo[0].0) && c in m.Keys + {todo[0].0}
    ensures F.Reaches(TreeOf(p, p[root].vault), root, root)
  {
    var t, src := TreeOf(p, p[root].vault), todo[0].0;
    FirstIsNew(p, q, root, vault, m, todo);
    assert Ids(todo)[0] in Ids(todo);
    var c :| c in all && c in p && p[c].parent == Some(src) && c in m.Keys + {src};
    SeenChildIsRoot(t, root, m.Keys, src, c);
  }

  /** A save addressed to the wrong vault reports an error, but has been written. */
  predicate SavedElsewhere(was: PackageMap, now: PackageMap, vault: VaultId, id: Option<Id>, name: string,
      parent: Option<Id>)
  {
    && id.Some? && id.value in was && was[id.value].vault != vault
    && now == was[id.value := Package(was[id.value].vault, T.Trim(name), parent)]
  }

  /** `p`, sitting in `parent` if it sat in `id`. */
  function Moved(p: Package, vault: VaultId, id: Id, parent: Option<Id>): Package {
    if p.vault == vault && p.parent == Some(id) then p.(parent := parent) else p
  }

  /** Once the walk has come to an end it meets nothing more. */
  lemma NeverAfter(t: F.Tree, x: Id, n: nat, y: Id)
    requires F.Up(t, x, n) == None && forall m: nat :: m < n ==> F.Up(t, x, m) != Some(y)
    ensures forall m: nat :: F.Up(t, x, m) != Some(y)
  {
    forall m: nat
      ensures F.Up(t, x, m) != Some(y)
    {
      if m >= n && F.Up(t, x, m).Some? { F.UpShorter(t, x, n, m); }
    }
  }

  /** A new id is nobody's ancestor. */
  lemma NobodyReachesNew(t: F.Tree, x: Id, me: Id)
    requires forall id :: id in t && t[id].Some? ==> t[id].value != me
    ensures !F.Reaches(t, x, me)
  {
    forall n: nat | n > 0
      ensures F.Up(t, x, n) != Some(me)
    {
      assert F.Up(t, x, n) == match F.Up(t, x, n - 1) case Some(y) => F.ParentOf(t, y) case None => None;
    }
  }

  /** Deleting a package takes its node out of its vault's tree. */
  lemma DeleteLiftsTree(packages: PackageMap, id: Id)
    requires id in packages
    ensures TreeOf(Lifted(packages, id), packages[id].vault) == F.Lift(TreeOf(packages, packages[id].vault), id)
    ensures forall v :: v != packages[id].vault ==> TreeOf(Lifted(packages, id), v) == TreeOf(packages, v)
  {
  }

  /** Deleting a package that is not its own parent preserves exactly the
      ancestor relation among the others. */
  lemma DeleteKeepsAncestors(packages: PackageMap, id: Id, a: Id, b: Id)
    requires id in packages && packages[id].parent != Some(id) && a != id && b != id
    ensures
      var v := packages[id].vault;
      F.Reaches(TreeOf(Lifted(packages, id), v), a, b) <==> F.Reaches(TreeOf(packages, v), a, b)
  {
    DeleteLiftsTree(packages, id);
    F.LiftKeepsAncestors(TreeOf(packages, packages[id].vault), id, a, b);
  }
}
